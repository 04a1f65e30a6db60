/** The assumptions about the libraries can be met: one codec and one parser that meet them. */
module SampleCodec {
  import opened Lookout
  import opened Gossip
  import Delivery

  function ParseUuid(s: string): Option<Uuid> {
    if UuidText(s) then Some(s) else None
  }

  /** Each text preceded by its length in unary. */
  function EncList(l: seq<string>): string {
    if l == [] then "" else EncText(l[0]) + EncList(l[1..])
  }

  function EncText(s: string): string {
    seq(|s|, _ => '1') + "0" + s
  }

  function Ones(s: string): (n: nat)
    ensures n <= |s|
  {
    if s != [] && s[0] == '1' then 1 + Ones(s[1..]) else 0
  }

  function DecList(s: string): Option<seq<string>>
    decreases |s|
  {
    if s == "" then Some([])
    else
      var n := Ones(s);
      if 2 * n + 1 > |s| then None
      else
        match DecList(s[2 * n + 1..])
        case None => None
        case Some(l) => Some([s[n + 1..2 * n + 1]] + l)
  }

  lemma {:induction false} OnesOf(n: nat, s: string)
    ensures Ones(seq(n, _ => '1') + "0" + s) == n
  {
    var t := seq(n, _ => '1') + "0" + s;
    if n > 0 {
      assert t[1..] == seq(n - 1, _ => '1') + "0" + s;
      OnesOf(n - 1, s);
    }
  }

  lemma {:induction false} ListRoundTrip(l: seq<string>)
    ensures DecList(EncList(l)) == Some(l)
  {
    if l != [] {
      var n, s := |l[0]|, EncList(l);
      assert s == seq(n, _ => '1') + "0" + (l[0] + EncList(l[1..]));
      OnesOf(n, l[0] + EncList(l[1..]));
      assert s[2 * n + 1..] == EncList(l[1..]) && s[n + 1..2 * n + 1] == l[0];
      ListRoundTrip(l[1..]);
      assert [l[0]] + l[1..] == l;
    }
  }

  function DecApp(s: string): Option<MonitoredApp> {
    match DecList(s)
    case Some(l) => if |l| == 2 then Some(MonitoredApp(l[0], l[1])) else None
    case None => None
  }

  function Sample(): Codec {
    Codec(
      (u: Uuid) => u,
      ParseUuid,
      (a: MonitoredApp) => EncList([a.status, a.kind]),
      DecApp,
      EncList,
      DecList,
      (t: string) => t,
      (t: string) => Some(t))
  }

  lemma SampleIsLawful()
    ensures Lawful(Sample())
    ensures Delivery.ReadsUuids(ParseUuid)
  {
    var c := Sample();
    forall u: Uuid ensures !(LO <= c.compress(u)) {
      assert HexDigit(u[0]);
    }
    forall a: MonitoredApp ensures c.decApp(c.encApp(a)) == Some(a) {
      ListRoundTrip([a.status, a.kind]);
    }
    forall l: seq<string> ensures c.decList(c.encList(l)) == Some(l) {
      ListRoundTrip(l);
    }
  }
}
