/** The loop that cuts a buffer read from the inotify descriptor into events. A record is the
    `struct inotify_event` of the inotify(7) manual page: four little-endian 32-bit fields (wd,
    mask, cookie, len), then len bytes holding the NUL-padded name. */
module Inotify {

  type Byte = b: int | 0 <= b < 256

  const HEADER := 16
  const U32 := 0x1_0000_0000

  datatype Event = Event(wd: int, mask: nat, cookie: nat, len: nat, name: seq<Byte>)

  /** `ok` is false when the loop dies on an index outside the buffer; `events` are those
      delivered until then, and `end` is the offset it had reached. */
  datatype Decoded = Decoded(events: seq<Event>, ok: bool, end: nat)

  // Reading

  function FromLittle(s: seq<Byte>): nat {
    if s == [] then 0 else s[0] as nat + 256 * FromLittle(s[1..])
  }

  /** The unsigned 32-bit field at `off`. */
  function Le32(buf: seq<Byte>, off: nat): nat
    requires off + 4 <= |buf|
  {
    FromLittle(buf[off..off + 4])
  }

  lemma Le32Small(buf: seq<Byte>, off: nat)
    requires off + 4 <= |buf|
    ensures Le32(buf, off) < U32
  {
    FromLittleSmall(buf[off..off + 4]);
  }

  function Power256(k: nat): nat {
    if k == 0 then 1 else 256 * Power256(k - 1)
  }

  lemma {:induction false} FromLittleSmall(s: seq<Byte>)
    ensures FromLittle(s) < Power256(|s|)
    ensures |s| == 4 ==> FromLittle(s) < U32
  {
    if s != [] {
      FromLittleSmall(s[1..]);
    }
    assert Power256(4) == U32;
  }

  /** Conversion to uint32 of an int in the range that occurs here. */
  function Wrap(x: int): (r: nat)
    requires -U32 <= x < 2 * U32
  {
    if x < 0 then x + U32 else if x >= U32 then x - U32 else x
  }

  function Signed(n: nat): int {
    if n < U32 / 2 then n else n - U32
  }

  function TrimRight(s: seq<Byte>): seq<Byte> {
    if s != [] && s[|s| - 1] == 0 then TrimRight(s[..|s| - 1]) else s
  }

  function EventAt(buf: seq<Byte>, off: nat, hi: nat): Event
    requires off + HEADER <= hi <= |buf|
  {
    Event(Signed(Le32(buf, off)), Le32(buf, off + 4), Le32(buf, off + 8), Le32(buf, off + 12),
          TrimRight(buf[off + HEADER..hi]))
  }

  /** The end of the record at `off`, as the loop computes it. */
  function RecordEnd(buf: seq<Byte>, off: nat): (hi: nat)
    requires off + HEADER <= |buf| && |buf| + HEADER < U32
    ensures hi < U32
  {
    Le32Small(buf, off + 12);
    Wrap(off + HEADER + Le32(buf, off + 12))
  }

  /** What the loop does from offset `off`, in uint32 arithmetic: the bound n - 16 is converted
      to uint32, and so is every new offset. */
  function Decode(buf: seq<Byte>, n: nat, off: nat): Decoded
    requires |buf| + HEADER < U32 && n <= |buf|
    decreases |buf| - off
  {
    if off > Wrap(n - HEADER) then Decoded([], true, off)
    else if off + HEADER > |buf| then Decoded([], false, off)
    else
      var hi := RecordEnd(buf, off);
      if hi < off + HEADER || hi > |buf| then Decoded([], false, off)
      else
        Prepend([EventAt(buf, off, hi)], Decode(buf, n, hi))
  }

  function Prepend(events: seq<Event>, d: Decoded): Decoded {
    Decoded(events + d.events, d.ok, d.end)
  }

  lemma PrependOne(events: seq<Event>, ev: Event, d: Decoded)
    ensures Prepend(events + [ev], d) == Prepend(events, Prepend([ev], d))
  {
    assert events + [ev] + d.events == events + ([ev] + d.events);
  }

  method EpInotifyWatch(buf: array<Byte>, n: nat) returns (events: seq<Event>, ok: bool, off: nat)
    requires buf.Length + HEADER < U32 && n <= buf.Length
    ensures Decoded(events, ok, off) == Decode(buf[..], n, 0)
  {
    events, ok, off := [], true, 0;
    ghost var all := buf[..];
    while off <= Wrap(n - HEADER)
      invariant ok && off <= buf.Length && all == buf[..]
      invariant Decode(all, n, 0) == Prepend(events, Decode(all, n, off))
      decreases buf.Length - off
    {
      if off + HEADER > buf.Length { return events, false, off; }
      var hi := RecordEnd(buf[..], off);
      if hi < off + HEADER || hi > buf.Length { return events, false, off; }
      var ev := ReadEvent(buf, off, hi);
      PrependOne(events, ev, Decode(all, n, hi));
      off := hi;
      events := events + [ev];
    }
  }

  method ReadEvent(buf: array<Byte>, off: nat, hi: nat) returns (ev: Event)
    requires off + HEADER <= hi <= buf.Length
    ensures ev == EventAt(buf[..], off, hi)
  {
    var name := TrimRight(buf[off + HEADER..hi]);
    assert buf[off + HEADER..hi] == buf[..][off + HEADER..hi];
    ev := Event(Signed(Le32(buf[..], off)), Le32(buf[..], off + 4), Le32(buf[..], off + 8),
                Le32(buf[..], off + 12), name);
  }

  // Writing, as the kernel does

  datatype Record = Record(wd: int, mask: nat, cookie: nat, name: seq<Byte>, pad: nat)

  /** The fields fit their 32 bits and the name carries no NUL of its own at its end. */
  predicate WellFormed(r: Record) {
    && -U32 / 2 <= r.wd < U32 / 2 && r.mask < U32 && r.cookie < U32
    && (r.name == [] || r.name[|r.name| - 1] != 0)
  }

  function Little(n: nat, k: nat): (s: seq<Byte>)
    ensures |s| == k
  {
    if k == 0 then [] else [n % 256] + Little(n / 256, k - 1)
  }

  function Bytes32(n: nat): (s: seq<Byte>)
    ensures |s| == 4
  {
    Little(n, 4)
  }

  function Unsigned(n: int): nat
    requires -U32 / 2 <= n < U32 / 2
  {
    Wrap(n)
  }

  function Zeros(k: nat): (s: seq<Byte>)
    ensures |s| == k
  {
    seq(k, _ => 0)
  }

  function Serialise(r: Record): (s: seq<Byte>)
    requires WellFormed(r)
    ensures |s| == HEADER + |r.name| + r.pad
  {
    Bytes32(Unsigned(r.wd)) + Bytes32(r.mask) + Bytes32(r.cookie) + Bytes32(|r.name| + r.pad) + (r.name + Zeros(r.pad))
  }

  predicate AllWellFormed(rs: seq<Record>) {
    forall r :: r in rs ==> WellFormed(r)
  }

  function SerialiseAll(rs: seq<Record>): seq<Byte>
    requires AllWellFormed(rs)
  {
    if rs == [] then [] else Serialise(rs[0]) + SerialiseAll(rs[1..])
  }

  function EventOf(r: Record): Event {
    Event(r.wd, r.mask, r.cookie, |r.name| + r.pad, r.name)
  }

  function EventsOf(rs: seq<Record>): seq<Event> {
    if rs == [] then [] else [EventOf(rs[0])] + EventsOf(rs[1..])
  }

  // Round trip

  lemma {:induction false} LittleRoundTrip(n: nat, k: nat)
    requires n < Power256(k)
    ensures FromLittle(Little(n, k)) == n
  {
    if k > 0 {
      LittleRoundTrip(n / 256, k - 1);
      assert Little(n, k)[1..] == Little(n / 256, k - 1);
    }
  }

  lemma Bytes32RoundTrip(n: nat)
    requires n < U32
    ensures FromLittle(Bytes32(n)) == n
  {
    assert Power256(4) == U32;
    LittleRoundTrip(n, 4);
  }

  lemma {:induction false} TrimRightPadded(name: seq<Byte>, k: nat)
    requires name == [] || name[|name| - 1] != 0
    ensures TrimRight(name + Zeros(k)) == name
  {
    if k == 0 {
      assert name + Zeros(0) == name;
    } else {
      assert (name + Zeros(k))[..|name| + k - 1] == name + Zeros(k - 1);
      TrimRightPadded(name, k - 1);
    }
  }

  /** Where the parts of a record stand in the buffer. */
  lemma PartsAt(buf: seq<Byte>, off: nat, a: seq<Byte>, b: seq<Byte>, c: seq<Byte>, d: seq<Byte>, e: seq<Byte>)
    requires |a| == |b| == |c| == |d| == 4 && off + HEADER + |e| <= |buf|
    requires buf[off..off + HEADER + |e|] == a + b + c + d + e
    ensures buf[off..off + 4] == a && buf[off + 4..off + 8] == b && buf[off + 8..off + 12] == c
    ensures buf[off + 12..off + 16] == d && buf[off + HEADER..off + HEADER + |e|] == e
  {
    var s := a + b + c + d + e;
    assert s[..4] == a && s[4..8] == b && s[8..12] == c && s[12..16] == d && s[16..] == e;
    assert forall i :: 0 <= i < |s| ==> buf[off + i] == buf[off..off + |s|][i] == s[i];
  }

  /** One serialised record, wherever it stands in the buffer, reads back as its event. */
  lemma RecordRoundTrip(buf: seq<Byte>, off: nat, r: Record)
    requires WellFormed(r) && off + |Serialise(r)| <= |buf| && |buf| + HEADER < U32
    requires buf[off..off + |Serialise(r)|] == Serialise(r)
    ensures RecordEnd(buf, off) == off + |Serialise(r)|
    ensures EventAt(buf, off, off + |Serialise(r)|) == EventOf(r)
  {
    PartsAt(buf, off, Bytes32(Unsigned(r.wd)), Bytes32(r.mask), Bytes32(r.cookie), Bytes32(|r.name| + r.pad),
            r.name + Zeros(r.pad));
    Bytes32RoundTrip(Unsigned(r.wd));
    Bytes32RoundTrip(r.mask);
    Bytes32RoundTrip(r.cookie);
    Bytes32RoundTrip(|r.name| + r.pad);
    TrimRightPadded(r.name, r.pad);
  }

  function Size(r: Record): nat {
    HEADER + |r.name| + r.pad
  }

  predicate RecordAt(buf: seq<Byte>, off: nat, r: Record) {
    WellFormed(r) && off + Size(r) <= |buf| && buf[off..off + Size(r)] == Serialise(r)
  }

  /** The records stand one after the other from `off` to `n`. */
  predicate RecordsAt(buf: seq<Byte>, off: nat, n: nat, rs: seq<Record>)
    decreases |rs|
  {
    if rs == [] then off == n
    else off + Size(rs[0]) <= n && RecordAt(buf, off, rs[0]) && RecordsAt(buf, off + Size(rs[0]), n, rs[1..])
  }

  lemma SplitAt(buf: seq<Byte>, off: nat, n: nat, a: seq<Byte>, b: seq<Byte>)
    requires off <= n <= |buf| && buf[off..n] == a + b
    ensures off + |a| + |b| == n
    ensures buf[off..off + |a|] == a && buf[off + |a|..n] == b
  {
    var s := buf[off..n];
    assert s[..|a|] == a && s[|a|..] == b;
    assert buf[off..off + |a|] == s[..|a|] && buf[off + |a|..n] == s[|a|..];
  }

  lemma {:induction false} SerialisedAt(buf: seq<Byte>, off: nat, n: nat, rs: seq<Record>)
    requires AllWellFormed(rs) && off <= n <= |buf| && buf[off..n] == SerialiseAll(rs)
    ensures RecordsAt(buf, off, n, rs)
    decreases |rs|
  {
    if rs != [] {
      SplitAt(buf, off, n, Serialise(rs[0]), SerialiseAll(rs[1..]));
      SerialisedAt(buf, off + Size(rs[0]), n, rs[1..]);
    }
  }

  /** The loop takes one whole record that lies before n. */
  lemma DecodeStep(buf: seq<Byte>, n: nat, off: nat, r: Record)
    requires RecordAt(buf, off, r) && n <= |buf| && |buf| + HEADER < U32 && off + Size(r) <= n
    ensures Decode(buf, n, off) == Prepend([EventOf(r)], Decode(buf, n, off + Size(r)))
  {
    RecordRoundTrip(buf, off, r);
    assert Wrap(n - HEADER) == n - HEADER;
  }

  lemma DecodeEnd(buf: seq<Byte>, n: nat)
    requires HEADER <= n <= |buf| && |buf| + HEADER < U32
    ensures Decode(buf, n, n) == Decoded([], true, n)
  {
  }

  lemma PrependEvent(rs: seq<Record>, d: Decoded, n: nat)
    requires rs != [] && d == Decoded(EventsOf(rs[1..]), true, n)
    ensures Prepend([EventOf(rs[0])], d) == Decoded(EventsOf(rs), true, n)
  {
  }

  /** From `off` on the loop takes the records one by one, up to n. */
  predicate TakenAt(buf: seq<Byte>, off: nat, n: nat, rs: seq<Record>)
    requires n <= |buf| && |buf| + HEADER < U32
    decreases |rs|
  {
    if rs == [] then off == n
    else
      && Decode(buf, n, off) == Prepend([EventOf(rs[0])], Decode(buf, n, off + Size(rs[0])))
      && TakenAt(buf, off + Size(rs[0]), n, rs[1..])
  }

  lemma {:induction false} RecordsAreTaken(buf: seq<Byte>, off: nat, n: nat, rs: seq<Record>)
    requires n <= |buf| && |buf| + HEADER < U32 && RecordsAt(buf, off, n, rs)
    ensures TakenAt(buf, off, n, rs)
    decreases |rs|
  {
    if rs != [] {
      RecordsAreTaken(buf, off + Size(rs[0]), n, rs[1..]);
      DecodeStep(buf, n, off, rs[0]);
    }
  }

  lemma {:induction false} TakenDecode(buf: seq<Byte>, n: nat, off: nat, rs: seq<Record>)
    requires HEADER <= n <= |buf| && |buf| + HEADER < U32 && TakenAt(buf, off, n, rs)
    ensures Decode(buf, n, off) == Decoded(EventsOf(rs), true, n)
    decreases |rs|
  {
    if rs == [] {
      DecodeEnd(buf, n);
    } else {
      TakenDecode(buf, n, off + Size(rs[0]), rs[1..]);
      PrependEvent(rs, Decode(buf, n, off + Size(rs[0])), n);
    }
  }

  lemma DecodeFrom(buf: seq<Byte>, n: nat, off: nat, rs: seq<Record>)
    requires HEADER <= n <= |buf| && |buf| + HEADER < U32 && RecordsAt(buf, off, n, rs)
    ensures Decode(buf, n, off) == Decoded(EventsOf(rs), true, n)
  {
    RecordsAreTaken(buf, off, n, rs);
    TakenDecode(buf, n, off, rs);
  }

  /** With fewer than 16 bytes read the bound wraps around to about 2^32, so the loop cannot end
      in the ordinary way: it runs over old buffer contents until it leaves the buffer. */
  lemma {:induction false} ShortReadCrashes(buf: seq<Byte>, n: nat, off: nat)
    requires n < HEADER && n <= |buf| && |buf| + HEADER < U32
    ensures !Decode(buf, n, off).ok || off > |buf|
    decreases |buf| - off
  {
    if off + HEADER <= |buf| {
      var hi := RecordEnd(buf, off);
      if off + HEADER <= hi <= |buf| {
        ShortReadCrashes(buf, n, hi);
      }
    }
  }

  /** Whatever stands in the rest of the buffer, the loop yields exactly the events serialised
      into its first n bytes, and stops at offset n, if and only if there is at least one. */
  lemma DecodeRoundTrip(rs: seq<Record>, rest: seq<Byte>)
    requires AllWellFormed(rs)
    requires |SerialiseAll(rs) + rest| + HEADER < U32
    ensures var n := |SerialiseAll(rs)|;
            Decode(SerialiseAll(rs) + rest, n, 0) == Decoded(EventsOf(rs), true, n) <==> rs != []
  {
    var bytes := SerialiseAll(rs);
    var buf := bytes + rest;
    if rs == [] {
      ShortReadCrashes(buf, 0, 0);
    } else {
      assert buf[0..|bytes|] == bytes;
      SerialisedAt(buf, 0, |bytes|, rs);
      DecodeFrom(buf, |bytes|, 0, rs);
    }
  }

  // What is read, byte by byte

  function Word(buf: seq<Byte>, at: nat): nat
    requires at + 4 <= |buf|
  {
    var a: nat, b: nat, c: nat, d: nat := buf[at], buf[at + 1], buf[at + 2], buf[at + 3];
    a + 256 * b + 65536 * c + 16777216 * d
  }

  lemma Le32IsWord(buf: seq<Byte>, at: nat)
    requires at + 4 <= |buf|
    ensures Le32(buf, at) == Word(buf, at)
  {
    var s := buf[at..at + 4];
    assert s[1..][1..] == s[2..] && s[2..][1..] == s[3..] && s[3..][1..] == [];
    assert FromLittle(s[3..]) == s[3] as nat;
    assert FromLittle(s[2..]) == s[2] as nat + 256 * FromLittle(s[3..]);
    assert FromLittle(s[1..]) == s[1] as nat + 256 * FromLittle(s[2..]);
  }

  lemma {:induction false} TrimmedIs(s: seq<Byte>)
    ensures TrimRight(s) <= s && (TrimRight(s) == [] || TrimRight(s)[|TrimRight(s)| - 1] != 0)
    ensures forall i :: |TrimRight(s)| <= i < |s| ==> s[i] == 0
  {
    if s != [] && s[|s| - 1] == 0 {
      TrimmedIs(s[..|s| - 1]);
    }
  }

  /** The event at an offset: four little-endian words, the first of them signed, and the bytes
      after them up to `hi` but for trailing NULs. The record ends `len` bytes after its header. */
  lemma EventIs(buf: seq<Byte>, off: nat, hi: nat)
    requires off + 16 <= hi <= |buf| && |buf| + HEADER < U32
    ensures var e := EventAt(buf, off, hi);
            && e.wd == (if Word(buf, off) < 2147483648 then Word(buf, off) as int else Word(buf, off) - 4294967296)
            && e.mask == Word(buf, off + 4) && e.cookie == Word(buf, off + 8) && e.len == Word(buf, off + 12)
            && off + 16 + |e.name| <= hi && e.name == buf[off + 16..off + 16 + |e.name|]
            && (e.name != [] ==> e.name[|e.name| - 1] != 0)
            && (forall i :: off + 16 + |e.name| <= i < hi ==> buf[i] == 0)
    ensures off + 16 + Word(buf, off + 12) < 4294967296 ==> RecordEnd(buf, off) == off + 16 + Word(buf, off + 12)
  {
    Le32IsWord(buf, off);
    Le32IsWord(buf, off + 4);
    Le32IsWord(buf, off + 8);
    Le32IsWord(buf, off + 12);
    NameIs(buf, off + 16, hi);
  }

  lemma NameIs(buf: seq<Byte>, lo: nat, hi: nat)
    requires lo <= hi <= |buf|
    ensures var name := TrimRight(buf[lo..hi]);
            && lo + |name| <= hi && name == buf[lo..lo + |name|]
            && (name != [] ==> name[|name| - 1] != 0)
            && (forall i :: lo + |name| <= i < hi ==> buf[i] == 0)
  {
    var s := buf[lo..hi];
    TrimmedIs(s);
    forall i | lo + |TrimRight(s)| <= i < hi ensures buf[i] == 0 {
      assert buf[i] == s[i - lo];
    }
  }

  /** One turn of the loop, with at least a header's worth of bytes read: it ends when no whole header
      is left before n; a record that ends within the buffer, even past n, is delivered; one that
      ends outside it is fatal. */
  lemma LoopIs(buf: seq<Byte>, n: nat, off: nat)
    requires 16 <= n <= |buf| && |buf| + HEADER < U32
    ensures off + 16 > n ==> Decode(buf, n, off) == Decoded([], true, off)
    ensures off + 16 <= n && off + 16 + Word(buf, off + 12) <= |buf| ==>
              var hi := off + 16 + Word(buf, off + 12);
              Decode(buf, n, off) == Prepend([EventAt(buf, off, hi)], Decode(buf, n, hi))
    ensures off + 16 <= n && off + 16 + Word(buf, off + 12) > |buf| ==>
              Decode(buf, n, off) == Decoded([], false, off)
  {
    if off + 16 <= n {
      Le32IsWord(buf, off + 12);
      Le32Small(buf, off + 12);
    }
  }
}
