/** The communication handler: gossip tags out and in, and its configured ports and addresses. */
module Communication {
  import opened Lookout
  import opened Decimal
  import opened Walk
  import opened Gossip

  const U16 := 65536

  // Port range

  /** `makeRange` in uint16 arithmetic. */
  function RangeOf(s: nat, e: nat): seq<nat> {
    seq((e - s + 1) % U16, i requires i >= 0 => (s + i) % U16)
  }

  /** How long the range is, and the port at each place. */
  lemma RangeAt(s: nat, e: nat)
    requires s < U16 && e < U16
    ensures |RangeOf(s, e)| == (if s <= e then if s == 0 && e == 65535 then 0 else e - s + 1
                                else 65536 - s + e + 1 - if s == e + 1 then 65536 else 0)
    ensures forall i :: 0 <= i < |RangeOf(s, e)| ==>
              RangeOf(s, e)[i] == if s + i < 65536 then s + i else s + i - 65536
  {
    forall i: nat | i < |RangeOf(s, e)| ensures RangeOf(s, e)[i] == if s + i < 65536 then s + i else s + i - 65536 {
      Mod16(s + i);
    }
  }

  lemma Mod16(x: nat)
    requires x < 2 * U16
    ensures x % U16 == if x < U16 then x else x - U16
  {
  }

  /** Pairwise distinct ports, starting at S and, if there are any, ending at E, each followed by
      the next one up to 65535 and that by 0; none at all when S is the successor of E. */
  lemma RangeIsDistinct(s: nat, e: nat)
    requires s < U16 && e < U16
    ensures var r := RangeOf(s, e);
            && (forall i, j :: 0 <= i < j < |r| ==> r[i] != r[j])
            && (forall i :: 0 <= i < |r| - 1 ==> r[i + 1] == if r[i] == 65535 then 0 else r[i] + 1)
            && (r == [] <==> s == if e == 65535 then 0 else e + 1)
            && (r != [] ==> r[0] == s && r[|r| - 1] == e)
  {
    RangeAt(s, e);
  }

  /** The range is the set of ports from S to E exactly when S <= E and the range is not the full
      one, whose length wraps to zero, or when S is one above E; it is then increasing. */
  lemma RangeIsIntervalIff(s: nat, e: nat)
    requires s < U16 && e < U16
    ensures (forall p :: p in RangeOf(s, e) <==> s <= p <= e) <==>
            (s <= e && !(s == 0 && e == U16 - 1)) || s == e + 1
    ensures s <= e ==> forall i, j :: 0 <= i < j < |RangeOf(s, e)| ==> RangeOf(s, e)[i] < RangeOf(s, e)[j]
  {
    var r := RangeOf(s, e);
    if s <= e && !(s == 0 && e == U16 - 1) {
      assert |r| == e - s + 1;
      forall p ensures p in r <==> s <= p <= e {
        if s <= p <= e {
          assert r[p - s] == p;
        }
      }
    } else if s == e + 1 || s <= e {
      assert r == [];
      if s <= e {
        assert s !in r;
      }
    } else {
      assert r[0] == s && s in r;
    }
  }

  // Duplicate addresses

  function Unique(s: seq<string>): seq<string> {
    if s == [] then []
    else
      var init, x := s[..|s| - 1], s[|s| - 1];
      if x in init then Unique(init) else Unique(init) + [x]
  }

  function FirstIndex(s: seq<string>, x: string): (i: nat)
    requires x in s
    ensures i < |s| && s[i] == x && x !in s[..i]
  {
    if x in s[..|s| - 1] then FirstIndex(s[..|s| - 1], x) else |s| - 1
  }

  /** The elements kept are those of the list, each once, in the order of their first occurrence. */
  lemma {:induction false} UniqueIsFirstOccurrences(s: seq<string>)
    ensures forall x :: x in Unique(s) <==> x in s
    ensures forall i, j :: 0 <= i < j < |Unique(s)| ==>
              Unique(s)[i] in s && Unique(s)[j] in s && FirstIndex(s, Unique(s)[i]) < FirstIndex(s, Unique(s)[j])
  {
    if s != [] {
      var init, x := s[..|s| - 1], s[|s| - 1];
      UniqueIsFirstOccurrences(init);
      assert s == init + [x];
      forall i | 0 <= i < |Unique(init)| ensures FirstIndex(s, Unique(init)[i]) == FirstIndex(init, Unique(init)[i]) {
        assert Unique(init)[i] in init;
      }
    }
  }

  lemma UniqueHasNoDuplicates(s: seq<string>)
    ensures forall i, j :: 0 <= i < j < |Unique(s)| ==> Unique(s)[i] != Unique(s)[j]
  {
    UniqueIsFirstOccurrences(s);
  }

  lemma {:induction false} UniqueOfDistinct(s: seq<string>)
    requires forall i, j :: 0 <= i < j < |s| ==> s[i] != s[j]
    ensures Unique(s) == s
  {
    if s != [] {
      UniqueOfDistinct(s[..|s| - 1]);
    }
  }

  lemma UniqueIsIdempotent(s: seq<string>)
    ensures Unique(Unique(s)) == Unique(s)
  {
    UniqueHasNoDuplicates(s);
    UniqueOfDistinct(Unique(s));
  }

  method RemoveDuplicateStr(strSlice: seq<string>) returns (list: seq<string>)
    ensures list == Unique(strSlice)
  {
    var allKeys: set<string> := {};
    list := [];
    for i := 0 to |strSlice|
      invariant list == Unique(strSlice[..i])
      invariant forall x :: x in allKeys <==> x in strSlice[..i]
    {
      assert strSlice[..i + 1][..i] == strSlice[..i];
      var item := strSlice[i];
      if item !in allKeys {
        allKeys := allKeys + {item};
        list := list + [item];
      }
    }
    assert strSlice[..|strSlice|] == strSlice;
  }

  class CommHandler {
    const codec: Codec
    const lookoutUUID: string
    const httpPort: Int
    var addrList: seq<string>
    var servicePortRangeS: Port
    var servicePortRangeE: Port
    var portRange: seq<nat>
    var lookouts: map<string, LookoutInfo>

    ghost function Self(): Identity
      reads this
    {
      Identity(lookoutUUID, httpPort, addrList, servicePortRangeS, servicePortRangeE)
    }

    constructor (codec: Codec, lookoutUUID: string, httpPort: Int)
      ensures this.codec == codec && this.lookoutUUID == lookoutUUID && this.httpPort == httpPort
      ensures lookouts == map[]
    {
      this.codec := codec;
      this.lookoutUUID := lookoutUUID;
      this.httpPort := httpPort;
      addrList, portRange, lookouts := [], [], map[];
      servicePortRangeS, servicePortRangeE := 0, 0;
    }

    method MakeRange()
      modifies this`portRange
      ensures portRange == RangeOf(servicePortRangeS, servicePortRangeE)
    {
      var n := (servicePortRangeE - servicePortRangeS + 1) % U16;
      var a := new nat[n];
      for i := 0 to n
        invariant forall j :: 0 <= j < i ==> a[j] == (servicePortRangeS + j) % U16
      {
        a[i] := (servicePortRangeS + i) % U16;
      }
      portRange := a[..];
    }

    /** `order` tells in which order the endpoint map was walked. */
    method GetCompressedGossipData(eps: map<Uuid, Ep>, now: int) returns (tags: Tags, ghost order: seq<Uuid>)
      ensures WalkOf(order, eps.Keys)
      ensures tags == Announce(codec, Self(), eps, order, now)
      ensures Lawful(codec) && Keyed(eps) ==> FromEndpoints(codec, eps, tags) && EndpointTags(codec, tags, eps)
      ensures Lawful(codec) && Int64(now) ==> OwnTags(codec, tags, Self(), now)
    {
      tags, order := map[], [];
      var todo := eps.Keys;
      while todo != {}
        invariant todo <= eps.Keys && WalkOf(order, eps.Keys - todo)
        invariant tags == PutApps(codec, eps, order)
        decreases todo
      {
        var u :| u in todo;
        WalkNext(order, eps.Keys - todo, u);
        assert eps.Keys - todo + {u} == eps.Keys - (todo - {u});
        assert (order + [u])[..|order|] == order;
        var ep := eps[u];
        var status := if ep.state == Running then "1" else "0";
        tags := tags[codec.compress(ep.uuid) := codec.encApp(MonitoredApp(status, AppName(ep.app)))];
        order := order + [u];
        todo := todo - {u};
      }
      tags := tags["LO-UUID" := lookoutUUID];
      tags := tags["LO-Type" := "LOOKOUT"];
      tags := tags["LO-Hport" := Itoa(httpPort)];
      tags := tags["LO-IPAddr" := codec.encList(addrList)];
      tags := tags["LO-PortRange" := codec.encText(Itoa(servicePortRangeS) + " " + Itoa(servicePortRangeE))];
      tags := tags["LO-Time" := Itoa(now)];
      if Lawful(codec) && Keyed(eps) {
        AnnounceIsFromEndpoints(codec, Self(), eps, order, now);
        EndpointTagsAre(codec, tags, eps);
      }
      if Lawful(codec) && Int64(now) {
        OwnTagsAre(codec, Self(), PutApps(codec, eps, order), now);
      }
    }

    /** The loop over one member's tags: it recovers the endpoints the tags were made from. */
    method ReadMonitoredApps(addr: Tags) returns (apps: map<Uuid, MonitoredApp>, ghost order: seq<string>)
      ensures WalkOf(order, addr.Keys)
      ensures apps == ReadApps(codec, addr, order)
      ensures Lawful(codec) ==> forall eps :: FromEndpoints(codec, eps, addr) ==> apps == AppsOf(eps)
    {
      apps, order := map[], [];
      var todo := addr.Keys;
      while todo != {}
        invariant todo <= addr.Keys && WalkOf(order, addr.Keys - todo)
        invariant apps == ReadApps(codec, addr, order)
        decreases todo
      {
        var key :| key in todo;
        WalkNext(order, addr.Keys - todo, key);
        assert addr.Keys - todo + {key} == addr.Keys - (todo - {key});
        assert (order + [key])[..|order|] == order;
        order := order + [key];
        todo := todo - {key};
        if LO <= key { continue; }
        var u := codec.decompress(key);
        if u.None? { continue; }
        var data := codec.decApp(addr[key]);
        if data.None? { continue; }
        apps := apps[u.value := data.value];
      }
      forall eps | Lawful(codec) && FromEndpoints(codec, eps, addr) ensures apps == AppsOf(eps) {
        ReadAppsAre(codec, eps, addr, order);
        ReadsAll(codec, eps, addr, order, apps);
      }
    }

    /** The body of the loop over members: None when the member is skipped. */
    method ReadMemberTags(addr: Tags) returns (info: Option<LookoutInfo>, ghost order: seq<string>)
      ensures info == ReadMember(codec, addr, order)
      ensures info.Some? ==> WalkOf(order, addr.Keys)
      ensures info.Some? && Lawful(codec) ==>
                forall eps :: FromEndpoints(codec, eps, addr) ==> info.value.apps == AppsOf(eps)
    {
      info, order := None, [];
      var time := ParseInt(Tag(addr, "LO-Time"));
      if time.None? { return; }
      var addrs := codec.decList(Tag(addr, "LO-IPAddr"));
      if addrs.None? { return; }
      var ports := codec.decText(Tag(addr, "LO-PortRange"));
      if ports.None? { return; }
      var apps;
      apps, order := ReadMonitoredApps(addr);
      info := Some(LookoutInfo(addrs.value, Tag(addr, "LO-Hport"), ports.value, apps, time.value));
    }

    /** One pass of `GetTags` over the members of the cluster. */
    method GetTags(members: seq<Tags>) returns (ghost walked: seq<Member>)
      modifies this`lookouts
      ensures |walked| == |members|
      ensures forall i :: 0 <= i < |members| ==> WalkedMember(codec, members[i], walked[i])
      ensures lookouts == Collect(old(lookouts), Entries(codec, walked))
    {
      walked := [];
      for i := 0 to |members|
        invariant |walked| == i
        invariant forall j :: 0 <= j < i ==> WalkedMember(codec, members[j], walked[j])
        invariant lookouts == Collect(old(lookouts), Entries(codec, walked))
      {
        ghost var order: seq<string>;
        var info;
        info, order := ReadMemberTags(members[i]);
        ghost var m := Member(members[i], order);
        assert WalkedMember(codec, members[i], m);
        EntriesNext(codec, old(lookouts), walked, m);
        walked := walked + [m];
        if info.Some? {
          lookouts := lookouts[Tag(members[i], "LO-UUID") := info.value];
        }
      }
    }
  }
}
