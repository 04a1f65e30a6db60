/** The rendering of one histogram: the non-zero buckets go into a map keyed by the text of their
    bound, come out as a list of ints, are sorted, and are looked up again by printing the int. */
module Histogram {
  import opened Lookout
  import opened Decimal
  import opened Walk

  /** One field of the structure: the first part of its json tag, and its count. */
  datatype Field = Field(bound: string, count: int)

  datatype Info = Info(buckets: map<string, string>, total: int)

  /** One rendered line: its `ge` label and the text of its count. */
  datatype Row = Row(ge: int, count: string)

  // parseHistogram

  function ParseInto(fields: seq<Field>): Info {
    if fields == [] then Info(map[], 0)
    else
      var n := |fields| - 1;
      var rest, f := ParseInto(fields[..n]), fields[n];
      if f.count == 0 then rest
      else Info(rest.buckets[f.bound := Itoa(f.count)], WrapSum(rest.total + f.count))
  }

  method ParseHistogram(fields: seq<Field>) returns (info: Info)
    ensures info == ParseInto(fields)
  {
    var buckets: map<string, string>, total := map[], 0;
    for i := 0 to |fields|
      invariant Info(buckets, total) == ParseInto(fields[..i])
    {
      assert fields[..i + 1][..i] == fields[..i];
      if fields[i].count != 0 {
        buckets := buckets[fields[i].bound := Itoa(fields[i].count)];
        total := WrapSum(total + fields[i].count);
      }
    }
    assert fields[..|fields|] == fields;
    info := Info(buckets, total);
  }

  // makePromHistogram

  function Insert(x: int, s: seq<int>): seq<int> {
    if s == [] || x <= s[0] then [x] + s else [s[0]] + Insert(x, s[1..])
  }

  /** `sort.Ints`. */
  function Sorted(s: seq<int>): seq<int> {
    if s == [] then [] else Insert(s[|s| - 1], Sorted(s[..|s| - 1]))
  }

  function Bounds(order: seq<string>): seq<int> {
    seq(|order|, i requires 0 <= i < |order| => Atoi(order[i]))
  }

  function Lookup(buckets: map<string, string>, key: string): string {
    if key in buckets then buckets[key] else ""
  }

  function RowsOf(bounds: seq<int>, buckets: map<string, string>): seq<Row> {
    seq(|bounds|, i requires 0 <= i < |bounds| => Row(bounds[i], Lookup(buckets, Itoa(bounds[i]))))
  }

  lemma RowsNext(bounds: seq<int>, buckets: map<string, string>, i: nat)
    requires i < |bounds|
    ensures RowsOf(bounds[..i + 1], buckets) ==
              RowsOf(bounds[..i], buckets) + [Row(bounds[i], Lookup(buckets, Itoa(bounds[i])))]
  {
  }

  method MakePromHistogram(info: Info) returns (rows: seq<Row>, printedCount: string, ghost order: seq<string>)
    ensures WalkOf(order, info.buckets.Keys)
    ensures rows == RowsOf(Sorted(Bounds(order)), info.buckets)
    ensures printedCount == Itoa(info.total)
  {
    var bounds: seq<int> := [];
    order := [];
    var todo := info.buckets.Keys;
    while todo != {}
      invariant todo <= info.buckets.Keys
      invariant WalkOf(order, info.buckets.Keys - todo) && bounds == Bounds(order)
      decreases todo
    {
      var k :| k in todo;
      WalkNext(order, info.buckets.Keys - todo, k);
      assert info.buckets.Keys - todo + {k} == info.buckets.Keys - (todo - {k});
      bounds := bounds + [Atoi(k)];
      order := order + [k];
      todo := todo - {k};
    }
    bounds := Sorted(bounds);
    rows := [];
    for i := 0 to |bounds|
      invariant rows == RowsOf(bounds[..i], info.buckets)
    {
      RowsNext(bounds, info.buckets, i);
      rows := rows + [Row(bounds[i], Lookup(info.buckets, Itoa(bounds[i])))];
    }
    assert bounds[..|bounds|] == bounds;
    printedCount := Itoa(info.total);
  }

  // What is rendered

  /** The bound's text is what printing its value gives back. */
  predicate Canonical(bound: string) {
    ParseInt(bound).Some? && Itoa(Atoi(bound)) == bound
  }

  /** Bounds that are distinct canonical decimals. */
  predicate Proper(fields: seq<Field>) {
    && (forall i :: 0 <= i < |fields| ==> Canonical(fields[i].bound))
    && (forall i, j :: 0 <= i < j < |fields| ==> fields[i].bound != fields[j].bound)
  }

  function NonZero(fields: seq<Field>): seq<Field> {
    if fields == [] then []
    else
      var n := |fields| - 1;
      NonZero(fields[..n]) + if fields[n].count == 0 then [] else [fields[n]]
  }

  function Sum<T>(f: T -> int, s: seq<T>): int {
    if s == [] then 0 else Sum(f, s[..|s| - 1]) + f(s[|s| - 1])
  }

  // Sorting

  predicate Ascending(s: seq<int>) {
    forall i, j :: 0 <= i < j < |s| ==> s[i] <= s[j]
  }

  lemma {:induction false} InsertAdds(x: int, s: seq<int>)
    ensures multiset(Insert(x, s)) == multiset(s) + multiset{x}
    ensures forall y :: y in Insert(x, s) ==> y == x || y in s
  {
    if s != [] && x > s[0] {
      InsertAdds(x, s[1..]);
      assert s == [s[0]] + s[1..];
    }
  }

  lemma {:induction false} InsertSorts(x: int, s: seq<int>)
    requires Ascending(s)
    ensures Ascending(Insert(x, s))
  {
    if s != [] && x > s[0] {
      InsertSorts(x, s[1..]);
      InsertAdds(x, s[1..]);
      var t := Insert(x, s[1..]);
      forall i | 0 <= i < |t| ensures s[0] <= t[i] {
        assert t[i] in t;
      }
    }
  }

  lemma {:induction false} SortedSorts(s: seq<int>)
    ensures multiset(Sorted(s)) == multiset(s)
    ensures Ascending(Sorted(s))
  {
    if s != [] {
      var init, x := s[..|s| - 1], s[|s| - 1];
      SortedSorts(init);
      InsertAdds(x, Sorted(init));
      InsertSorts(x, Sorted(init));
      assert s == init + [x];
    }
  }

  // Sums over permutations

  lemma {:induction false} SumConcat<T>(f: T -> int, a: seq<T>, b: seq<T>)
    ensures Sum(f, a + b) == Sum(f, a) + Sum(f, b)
  {
    if b == [] {
      assert a + b == a;
    } else {
      assert (a + b)[..|a + b| - 1] == a + b[..|b| - 1];
      SumConcat(f, a, b[..|b| - 1]);
    }
  }

  lemma SumWithout<T>(f: T -> int, l: seq<T>, x: T, r: seq<T>)
    ensures Sum(f, l + [x] + r) == Sum(f, l + r) + f(x)
  {
    assert l + [x] + r == l + ([x] + r) && [x][..0] == [];
    SumConcat(f, l, [x] + r);
    SumConcat(f, [x], r);
    SumConcat(f, l, r);
  }

  lemma SplitOut<T>(b: seq<T>, x: T) returns (l: seq<T>, r: seq<T>)
    requires x in multiset(b)
    ensures b == l + [x] + r
  {
    var i :| 0 <= i < |b| && b[i] == x;
    l, r := b[..i], b[i + 1..];
  }

  lemma MultisetWithout<T>(a: seq<T>, x: T, l: seq<T>, r: seq<T>)
    requires multiset(a + [x]) == multiset(l + [x] + r)
    ensures multiset(a) == multiset(l + r)
  {
    assert multiset(a) == multiset(a + [x]) - multiset{x};
    assert multiset(l + r) == multiset(l + [x] + r) - multiset{x};
  }

  lemma {:induction false} SumPermuted<T>(f: T -> int, a: seq<T>, b: seq<T>)
    requires multiset(a) == multiset(b)
    ensures Sum(f, a) == Sum(f, b)
  {
    if a == [] {
      assert |multiset(b)| == |b|;
    } else {
      var init, x := a[..|a| - 1], a[|a| - 1];
      assert a == init + [x] && x in multiset(a);
      var l, r := SplitOut(b, x);
      MultisetWithout(init, x, l, r);
      SumPermuted(f, init, l + r);
      SumWithout(f, l, x, r);
    }
  }

  // Rows against fields

  /** The (bound, count) texts a list of rows shows, and those a list of fields asks for. */
  function Shown(rows: seq<Row>): seq<(string, string)> {
    seq(|rows|, i requires 0 <= i < |rows| => (Itoa(rows[i].ge), rows[i].count))
  }

  function Wanted(fields: seq<Field>): seq<(string, string)> {
    seq(|fields|, i requires 0 <= i < |fields| => (fields[i].bound, Itoa(fields[i].count)))
  }

  predicate Increasing(rows: seq<Row>) {
    forall i, j :: 0 <= i < j < |rows| ==> rows[i].ge < rows[j].ge
  }

  /** The rows are the non-zero fields, each once, in strictly increasing bound order. */
  ghost predicate Exact(fields: seq<Field>, rows: seq<Row>) {
    Increasing(rows) && multiset(Shown(rows)) == multiset(Wanted(NonZero(fields)))
  }

  predicate NoDuplicates<T(==)>(s: seq<T>) {
    forall i, j :: 0 <= i < j < |s| ==> s[i] != s[j]
  }

  lemma {:induction false} CountOnce<T>(s: seq<T>, x: T)
    requires NoDuplicates(s)
    ensures multiset(s)[x] == if x in s then 1 else 0
  {
    if s != [] {
      var n := |s| - 1;
      CountOnce(s[..n], x);
      assert s == s[..n] + [s[n]];
    }
  }

  lemma CountTwice<T>(s: seq<T>, i: nat, j: nat)
    requires i < j < |s| && s[i] == s[j]
    ensures multiset(s)[s[i]] >= 2
  {
    var l, m, r := s[..i + 1], s[i + 1..j], s[j..];
    assert s == l + m + r;
    assert l[i] in multiset(l) && r[0] in multiset(r);
  }

  lemma SameElements<T>(a: seq<T>, b: seq<T>)
    requires NoDuplicates(a) && NoDuplicates(b) && forall x :: x in a <==> x in b
    ensures multiset(a) == multiset(b)
  {
    forall x ensures multiset(a)[x] == multiset(b)[x] {
      CountOnce(a, x);
      CountOnce(b, x);
    }
  }

  // The map between parsing and printing

  ghost predicate Gives(nz: seq<Field>, key: string, text: string) {
    exists f :: f in nz && f.bound == key && text == Itoa(f.count)
  }

  /** The map holds exactly the bounds of the fields, each with the text of a count given for it. */
  ghost predicate Describes(m: map<string, string>, nz: seq<Field>) {
    && (forall f :: f in nz ==> f.bound in m)
    && (forall k :: k in m ==> Gives(nz, k, m[k]))
  }

  lemma DescribesNext(m: map<string, string>, nz: seq<Field>, f: Field)
    requires Describes(m, nz)
    ensures Describes(m[f.bound := Itoa(f.count)], nz + [f])
  {
    var m', nz' := m[f.bound := Itoa(f.count)], nz + [f];
    assert f in nz';
    forall k | k in m' ensures Gives(nz', k, m'[k]) {
      if k != f.bound {
        assert Gives(nz, k, m[k]);
        var g :| g in nz && g.bound == k && m[k] == Itoa(g.count);
        assert g in nz';
      }
    }
  }

  lemma {:induction false} BucketsAre(fields: seq<Field>)
    ensures Describes(ParseInto(fields).buckets, NonZero(fields))
  {
    if fields != [] {
      var n := |fields| - 1;
      BucketsAre(fields[..n]);
      if fields[n].count != 0 {
        DescribesNext(ParseInto(fields[..n]).buckets, NonZero(fields[..n]), fields[n]);
      } else {
        assert NonZero(fields) == NonZero(fields[..n]);
      }
    }
  }

  lemma AtoiFits(s: string)
    ensures Int64(Atoi(s))
  {
  }

  lemma BoundsAreDistinct(order: seq<string>, keys: set<string>)
    requires WalkOf(order, keys) && forall k :: k in keys ==> Canonical(k)
    ensures NoDuplicates(Bounds(order))
    ensures forall i :: 0 <= i < |order| ==> Itoa(Bounds(order)[i]) == order[i] && order[i] in keys
  {
    forall i | 0 <= i < |order| ensures Itoa(Bounds(order)[i]) == order[i] && order[i] in keys {
      assert order[i] in order;
    }
  }

  lemma SortedStrictly(s: seq<int>)
    requires NoDuplicates(s)
    ensures forall i, j :: 0 <= i < j < |Sorted(s)| ==> Sorted(s)[i] < Sorted(s)[j]
    ensures forall x :: x in Sorted(s) <==> x in s
  {
    SortedSorts(s);
    var t := Sorted(s);
    forall x ensures x in t <==> x in s {
      assert x in multiset(t) <==> x in multiset(s);
    }
    forall i, j | 0 <= i < j < |t| ensures t[i] < t[j] {
      if t[i] == t[j] {
        CountTwice(t, i, j);
        CountOnce(s, t[i]);
        assert false;
      }
    }
  }

  /** A sorted bound comes from a key, and prints as that key. */
  lemma SortedFromKey(order: seq<string>, keys: set<string>, b: int)
    requires WalkOf(order, keys) && forall k :: k in keys ==> Canonical(k)
    requires b in Bounds(order)
    ensures Itoa(b) in keys
  {
    var a :| 0 <= a < |order| && Bounds(order)[a] == b;
    assert order[a] in order;
  }

  lemma KeyIsSorted(order: seq<string>, keys: set<string>, k: string)
    requires WalkOf(order, keys) && k in keys
    ensures Atoi(k) in Bounds(order)
  {
    assert k in order;
    var a :| 0 <= a < |order| && order[a] == k;
    assert Bounds(order)[a] == Atoi(k);
  }

  /** The bounds read back from a walk over canonical keys, sorted: strictly increasing, and
      printing them gives the keys again. */
  lemma SortedBounds(order: seq<string>, keys: set<string>)
    requires WalkOf(order, keys) && forall k :: k in keys ==> Canonical(k)
    ensures var bs := Sorted(Bounds(order));
            && (forall i, j :: 0 <= i < j < |bs| ==> bs[i] < bs[j])
            && (forall i :: 0 <= i < |bs| ==> Itoa(bs[i]) in keys)
            && (forall k :: k in keys ==> Atoi(k) in bs && Itoa(Atoi(k)) == k)
  {
    var raw, bs := Bounds(order), Sorted(Bounds(order));
    BoundsAreDistinct(order, keys);
    SortedStrictly(raw);
    forall i | 0 <= i < |bs| ensures Itoa(bs[i]) in keys {
      SortedFromKey(order, keys, bs[i]);
    }
    forall k | k in keys ensures Atoi(k) in bs {
      KeyIsSorted(order, keys, k);
    }
  }

  lemma ShownNoDuplicates(rows: seq<Row>)
    requires Increasing(rows) && forall i :: 0 <= i < |rows| ==> Int64(rows[i].ge)
    ensures NoDuplicates(Shown(rows))
    ensures forall i, j :: 0 <= i < |rows| && 0 <= j < |rows| && Itoa(rows[i].ge) == Itoa(rows[j].ge) ==> i == j
  {
    forall i | 0 <= i < |rows| ensures Atoi(Itoa(rows[i].ge)) == rows[i].ge {
      ItoaRoundTrip(rows[i].ge);
    }
  }

  lemma RowsFit(order: seq<string>, buckets: map<string, string>)
    ensures forall i :: 0 <= i < |RowsOf(Sorted(Bounds(order)), buckets)| ==>
              Int64(RowsOf(Sorted(Bounds(order)), buckets)[i].ge)
  {
    var raw, bs := Bounds(order), Sorted(Bounds(order));
    SortedSorts(raw);
    forall i | 0 <= i < |bs| ensures Int64(bs[i]) {
      assert bs[i] in multiset(raw);
      var a :| 0 <= a < |raw| && raw[a] == bs[i];
      AtoiFits(order[a]);
    }
  }

  lemma ShownIsWanted(nz: seq<Field>, m: map<string, string>, bs: seq<int>, p: (string, string))
    requires Describes(m, nz) && forall i :: 0 <= i < |bs| ==> Itoa(bs[i]) in m
    requires p in Shown(RowsOf(bs, m))
    ensures p in Wanted(nz)
  {
    var a :| 0 <= a < |bs| && Shown(RowsOf(bs, m))[a] == p;
    assert p.0 in m && p.1 == m[p.0] && Gives(nz, p.0, m[p.0]);
    var f :| f in nz && f.bound == p.0 && m[p.0] == Itoa(f.count);
    var i :| 0 <= i < |nz| && nz[i] == f;
    assert Wanted(nz)[i] == p;
  }

  lemma WantedIsShown(nz: seq<Field>, m: map<string, string>, bs: seq<int>, p: (string, string))
    requires Proper(nz) && Describes(m, nz)
    requires forall k :: k in m ==> Atoi(k) in bs && Itoa(Atoi(k)) == k
    requires p in Wanted(nz)
    ensures p in Shown(RowsOf(bs, m))
  {
    var i :| 0 <= i < |nz| && Wanted(nz)[i] == p;
    assert nz[i] in nz && nz[i].bound in m && Gives(nz, p.0, m[p.0]);
    var f :| f in nz && f.bound == p.0 && m[p.0] == Itoa(f.count);
    var j :| 0 <= j < |nz| && nz[j] == f;
    assert i == j;
    var a :| 0 <= a < |bs| && bs[a] == Atoi(p.0);
    assert Shown(RowsOf(bs, m))[a] == p;
  }

  lemma ProperIsExact(fields: seq<Field>, order: seq<string>)
    requires Proper(NonZero(fields)) && WalkOf(order, ParseInto(fields).buckets.Keys)
    ensures Exact(fields, RowsOf(Sorted(Bounds(order)), ParseInto(fields).buckets))
  {
    var m, nz := ParseInto(fields).buckets, NonZero(fields);
    var bs := Sorted(Bounds(order));
    BucketsAre(fields);
    forall k | k in m.Keys ensures Canonical(k) {
      assert Gives(nz, k, m[k]);
      var f :| f in nz && f.bound == k && m[k] == Itoa(f.count);
    }
    SortedBounds(order, m.Keys);
    RowsFit(order, m);
    ShownNoDuplicates(RowsOf(bs, m));
    forall p | p in Shown(RowsOf(bs, m)) ensures p in Wanted(nz) {
      ShownIsWanted(nz, m, bs, p);
    }
    forall p | p in Wanted(nz) ensures p in Shown(RowsOf(bs, m)) {
      WantedIsShown(nz, m, bs, p);
    }
    SameElements(Shown(RowsOf(bs, m)), Wanted(nz));
  }

  /** Rows that show exactly what is wanted: every wanted bound is canonical, and stands alone. */
  lemma ShownIsCanonical(nz: seq<Field>, rows: seq<Row>, i: nat)
    requires multiset(Shown(rows)) == multiset(Wanted(nz)) && i < |nz|
    requires forall j :: 0 <= j < |rows| ==> Int64(rows[j].ge)
    ensures Canonical(nz[i].bound)
  {
    var sh, wa := Shown(rows), Wanted(nz);
    assert wa[i] in multiset(wa);
    assert wa[i] in multiset(sh);
    var a :| 0 <= a < |sh| && sh[a] == wa[i];
    ItoaRoundTrip(rows[a].ge);
  }

  lemma ShownStandsAlone(nz: seq<Field>, rows: seq<Row>, i: nat, j: nat)
    requires multiset(Shown(rows)) == multiset(Wanted(nz)) && Increasing(rows) && i < j < |nz|
    requires forall j :: 0 <= j < |rows| ==> Int64(rows[j].ge)
    ensures nz[i].bound != nz[j].bound
  {
    var sh, wa := Shown(rows), Wanted(nz);
    ShownNoDuplicates(rows);
    if nz[i].bound == nz[j].bound {
      assert wa[i] in multiset(sh) && wa[j] in multiset(sh);
      var a :| 0 <= a < |sh| && sh[a] == wa[i];
      var b :| 0 <= b < |sh| && sh[b] == wa[j];
      assert a == b;
      CountTwice(wa, i, j);
      CountOnce(sh, wa[i]);
      assert false;
    }
  }

  lemma ExactIsProper(fields: seq<Field>, order: seq<string>)
    requires WalkOf(order, ParseInto(fields).buckets.Keys)
    requires Exact(fields, RowsOf(Sorted(Bounds(order)), ParseInto(fields).buckets))
    ensures Proper(NonZero(fields))
  {
    var m, nz := ParseInto(fields).buckets, NonZero(fields);
    var rows := RowsOf(Sorted(Bounds(order)), m);
    RowsFit(order, m);
    forall i: nat | i < |nz| ensures Canonical(nz[i].bound) {
      ShownIsCanonical(nz, rows, i);
    }
    forall i: nat, j: nat | i < j < |nz| ensures nz[i].bound != nz[j].bound {
      ShownStandsAlone(nz, rows, i, j);
    }
  }

  /** Whatever order the map is walked in, the rendered rows are exactly the non-zero fields, each
      with its own count, in strictly increasing bound order, if and only if the bounds of the
      non-zero fields are distinct canonical decimals. */
  lemma RowsExactIff(fields: seq<Field>, order: seq<string>)
    requires WalkOf(order, ParseInto(fields).buckets.Keys)
    ensures Exact(fields, RowsOf(Sorted(Bounds(order)), ParseInto(fields).buckets)) <==> Proper(NonZero(fields))
  {
    if Proper(NonZero(fields)) {
      ProperIsExact(fields, order);
    } else if Exact(fields, RowsOf(Sorted(Bounds(order)), ParseInto(fields).buckets)) {
      ExactIsProper(fields, order);
    }
  }

  function Ges(rows: seq<Row>): seq<int> {
    seq(|rows|, i requires 0 <= i < |rows| => rows[i].ge)
  }

  /** Whatever the bounds are: one row for each key, its label the number the key is read as, in
      ascending order, its count the one found under the label's text, or none. */
  lemma RowsAre(order: seq<string>, buckets: map<string, string>)
    ensures var rows := RowsOf(Sorted(Bounds(order)), buckets);
            && multiset(Ges(rows)) == multiset(Bounds(order)) && Ascending(Ges(rows))
            && (forall i :: 0 <= i < |rows| ==>
                  rows[i].count == if Itoa(rows[i].ge) in buckets then buckets[Itoa(rows[i].ge)] else "")
  {
    SortedSorts(Bounds(order));
    assert Ges(RowsOf(Sorted(Bounds(order)), buckets)) == Sorted(Bounds(order));
  }

  // Conservation

  function CountOf(p: (string, string)): int {
    Atoi(p.1)
  }

  function Counts(fields: seq<Field>): int {
    if fields == [] then 0 else Counts(fields[..|fields| - 1]) + fields[|fields| - 1].count
  }

  lemma {:induction false} NonZeroWithin(fields: seq<Field>)
    ensures forall f :: f in NonZero(fields) ==> f in fields
    ensures Counts(NonZero(fields)) == Counts(fields)
  {
    if fields != [] {
      var n := |fields| - 1;
      NonZeroWithin(fields[..n]);
      if fields[n].count != 0 {
        assert NonZero(fields)[..|NonZero(fields)| - 1] == NonZero(fields[..n]);
      } else {
        assert NonZero(fields) == NonZero(fields[..n]);
      }
    }
  }

  predicate Machine(fields: seq<Field>) {
    forall f :: f in fields ==> Int64(f.count)
  }

  /** The printed total is a 64-bit int that differs from the sum by whole turns. */
  lemma {:induction false} TotalTurns(fields: seq<Field>) returns (q: int)
    requires Machine(fields)
    ensures Int64(ParseInto(fields).total) && ParseInto(fields).total == Counts(fields) + q * TWO64
  {
    q := 0;
    if fields != [] {
      var n := |fields| - 1;
      assert fields[n] in fields;
      q := TotalTurns(fields[..n]);
      var x := ParseInto(fields[..n]).total + fields[n].count;
      if x > MAX {
        q := q - 1;
      } else if x < -MAX - 1 {
        q := q + 1;
      }
    }
  }

  /** The total is the sum of the counts if and only if that sum fits a 64-bit int. */
  lemma TotalIsSumIff(fields: seq<Field>)
    requires Machine(fields)
    ensures ParseInto(fields).total == Counts(fields) <==> Int64(Counts(fields))
  {
    var q := TotalTurns(fields);
  }

  lemma CountOfField(f: Field)
    requires Int64(f.count)
    ensures CountOf((f.bound, Itoa(f.count))) == f.count
  {
    ItoaRoundTrip(f.count);
  }

  lemma {:induction false} CountsAreWanted(fields: seq<Field>)
    requires forall f :: f in fields ==> Int64(f.count)
    ensures Counts(fields) == Sum(CountOf, Wanted(fields))
  {
    if fields != [] {
      var n := |fields| - 1;
      CountsAreWanted(fields[..n]);
      CountOfField(fields[n]);
      assert Wanted(fields)[..n] == Wanted(fields[..n]);
    }
  }

  /** It can fail to fit: two counts of the largest 64-bit int. */
  lemma TotalCanWrap()
    ensures var fields := [Field("1", MAX), Field("2", MAX)];
            Machine(fields) && Proper(fields) && ParseInto(fields).total != Counts(fields)
  {
    var fields := [Field("1", MAX), Field("2", MAX)];
    assert Counts(fields) == 2 * MAX by {
      assert fields[..1] == [fields[0]] && fields[..1][..0] == [];
      assert Counts(fields[..1]) == MAX;
    }
    PlainRoundTrip("1");
    PlainRoundTrip("2");
    TotalIsSumIff(fields);
  }

  /** The counts shown in the rows add up to the sum of all counts, and to the total printed as
      `_count` if and only if that sum fits a 64-bit int. */
  lemma RowsSumToTotalIff(fields: seq<Field>, order: seq<string>)
    requires WalkOf(order, ParseInto(fields).buckets.Keys) && Proper(NonZero(fields)) && Machine(fields)
    ensures var shown := Sum(CountOf, Shown(RowsOf(Sorted(Bounds(order)), ParseInto(fields).buckets)));
            && shown == Counts(fields)
            && (shown == ParseInto(fields).total <==> Int64(Counts(fields)))
  {
    ProperIsExact(fields, order);
    NonZeroWithin(fields);
    TotalIsSumIff(fields);
    CountsAreWanted(NonZero(fields));
    SumPermuted(CountOf, Shown(RowsOf(Sorted(Bounds(order)), ParseInto(fields).buckets)), Wanted(NonZero(fields)));
  }

  // The one histogram type there is

  /** The bounds in the json tags of the structure, in declaration order. */
  const BOUNDS: seq<string> := [
    "1", "2", "4", "8", "16", "32", "64", "128", "256", "512", "1024", "2048", "4096", "8192",
    "16384", "32768", "65536", "131072", "262144", "524288", "1048576"]

  function HistogramFields(counts: seq<int>): seq<Field>
    requires |counts| == |BOUNDS|
  {
    seq(|BOUNDS|, i requires 0 <= i < |BOUNDS| => Field(BOUNDS[i], counts[i]))
  }

  function PowerOf2(i: nat): nat {
    if i == 0 then 1 else 2 * PowerOf2(i - 1)
  }

  lemma BoundDigits(i: nat)
    requires i < |BOUNDS|
    ensures AllDigits(BOUNDS[i]) && BOUNDS[i] != []
  {
  }

  lemma SmallBounds(i: nat)
    requires i < 14 && AllDigits(BOUNDS[i])
    ensures |BOUNDS[i]| <= 4 && Number(BOUNDS[i]) == PowerOf2(i)
  {
    var s := BOUNDS[i];
    if |s| == 1 {
      Number1(s);
    } else if |s| == 2 {
      Number2(s);
    } else if |s| == 3 {
      Number3(s);
    } else {
      Number4(s);
    }
    SmallPowers();
  }

  lemma SmallPowers()
    ensures PowerOf2(0) == 1 && PowerOf2(1) == 2 && PowerOf2(2) == 4 && PowerOf2(3) == 8 && PowerOf2(4) == 16
    ensures PowerOf2(5) == 32 && PowerOf2(6) == 64 && PowerOf2(7) == 128 && PowerOf2(8) == 256 && PowerOf2(9) == 512
    ensures PowerOf2(10) == 1024 && PowerOf2(11) == 2048 && PowerOf2(12) == 4096 && PowerOf2(13) == 8192
  {
  }

  lemma LargePowers()
    ensures PowerOf2(14) == 16384 && PowerOf2(15) == 32768 && PowerOf2(16) == 65536 && PowerOf2(17) == 131072
    ensures PowerOf2(18) == 262144 && PowerOf2(19) == 524288 && PowerOf2(20) == 1048576
  {
    SmallPowers();
  }

  lemma LargeBounds(i: nat)
    requires 14 <= i < |BOUNDS| && AllDigits(BOUNDS[i])
    ensures 5 <= |BOUNDS[i]| <= 7 && Number(BOUNDS[i]) == PowerOf2(i)
  {
    var s := BOUNDS[i];
    Thousands(s);
    LargePowers();
    if |s| == 5 {
      Number2(s[..2]);
    } else if |s| == 6 {
      Number3(s[..3]);
    } else {
      Number4(s[..4]);
    }
  }

  /** The bounds are the powers of two from 1 to 1048576. */
  lemma BoundsArePowers(i: nat)
    requires i < |BOUNDS|
    ensures |BOUNDS| == 21 && Atoi(BOUNDS[i]) == PowerOf2(i)
  {
    BoundDigits(i);
    BoundsArePlain(i);
    PlainRoundTrip(BOUNDS[i]);
    if i < 14 {
      SmallBounds(i);
    } else {
      LargeBounds(i);
    }
    assert IsDigit(BOUNDS[i][0]);
  }

  /** Texts in an order of length first, then leading digit. */
  predicate Before(s: string, t: string)
    requires s != [] && t != []
  {
    |s| < |t| || (|s| == |t| && s[0] < t[0])
  }

  lemma BoundsArePlain(i: nat)
    requires i < |BOUNDS|
    ensures Plain(BOUNDS[i]) && (i + 1 < |BOUNDS| ==> Before(BOUNDS[i], BOUNDS[i + 1]))
  {
  }

  lemma {:induction false} BoundsDiffer(i: nat, j: nat)
    requires i < j < |BOUNDS|
    ensures BOUNDS[i] != [] && BOUNDS[j] != [] && Before(BOUNDS[i], BOUNDS[j])
    decreases j
  {
    BoundsArePlain(i);
    BoundsArePlain(j);
    BoundsArePlain(j - 1);
    if i < j - 1 {
      BoundsDiffer(i, j - 1);
    }
  }

  lemma ProperNext(init: seq<Field>, f: Field)
    requires Proper(init) && Canonical(f.bound) && forall g :: g in init ==> g.bound != f.bound
    ensures Proper(init + [f])
  {
  }

  lemma LastDiffers(fields: seq<Field>, g: Field)
    requires Proper(fields) && fields != [] && g in fields[..|fields| - 1]
    ensures g.bound != fields[|fields| - 1].bound
  {
    var i :| 0 <= i < |fields| - 1 && fields[i] == g;
  }

  lemma {:induction false} NonZeroStaysProper(fields: seq<Field>)
    requires Proper(fields)
    ensures Proper(NonZero(fields))
  {
    if fields != [] {
      var n := |fields| - 1;
      var init := NonZero(fields[..n]);
      NonZeroStaysProper(fields[..n]);
      NonZeroWithin(fields[..n]);
      if fields[n].count == 0 {
        assert NonZero(fields) == init;
      } else {
        forall g | g in init ensures g.bound != fields[n].bound {
          LastDiffers(fields, g);
        }
        ProperNext(init, fields[n]);
      }
    }
  }

  /** The application histogram is always rendered exactly, and its rows add up to its total if and
      only if the sum of its counts fits a 64-bit int. */
  lemma HistogramIsExact(counts: seq<int>, order: seq<string>)
    requires |counts| == |BOUNDS| && forall i :: 0 <= i < |counts| ==> Int64(counts[i])
    requires WalkOf(order, ParseInto(HistogramFields(counts)).buckets.Keys)
    ensures var info := ParseInto(HistogramFields(counts));
            var rows := RowsOf(Sorted(Bounds(order)), info.buckets);
            && Exact(HistogramFields(counts), rows)
            && Sum(CountOf, Shown(rows)) == Counts(HistogramFields(counts))
            && (Sum(CountOf, Shown(rows)) == info.total <==> Int64(Counts(HistogramFields(counts))))
  {
    var fields := HistogramFields(counts);
    forall i: nat | i < |fields| ensures Canonical(fields[i].bound) {
      BoundsArePlain(i);
      PlainRoundTrip(BOUNDS[i]);
    }
    forall i: nat, j: nat | i < j < |fields| ensures fields[i].bound != fields[j].bound {
      BoundsDiffer(i, j);
    }
    NonZeroStaysProper(fields);
    RowsExactIff(fields, order);
    RowsSumToTotalIff(fields, order);
  }
}
