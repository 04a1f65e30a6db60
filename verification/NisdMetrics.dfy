/** `Nisd.Parse`: one label map, changed in place and handed to the renderer again and again,
    against the pure account in which every record simply has its own labels. */
module NisdMetrics {
  import opened Lookout
  import opened Decimal

  type Labels = map<string, string>

  /** The numeric fields of a record, in declaration order, with their metric names. */
  datatype Metrics = Metrics(fields: seq<(string, int)>)

  datatype Root = Root(altName: string, metrics: Metrics)

  datatype Chunk = Chunk(vdevUuid: string, number: nat, metrics: Metrics)

  /** A buffer set node, a task or a merge record: all three are labelled by one name. */
  datatype Named = Named(name: string, metrics: Metrics)

  datatype Nisd = Nisd(
    uuid: string,
    managers: seq<Metrics>,
    roots: seq<Root>,
    sysInfo: Option<Metrics>,
    chunks: seq<Chunk>,
    buffers: seq<Named>,
    tasks: seq<Named>,
    merges: seq<Named>)

  /** One call of the generic renderer: the record and the labels it saw. */
  datatype Emission = Emission(record: Metrics, labels: Labels)

  const VDEV := "VDEV_UUID"
  const CHUNK := "CHUNK_NUM"
  const NAME := "NAME"

  class LabelMap {
    var m: Labels

    constructor (m: Labels)
      ensures this.m == m
    {
      this.m := m;
    }
  }

  // The pure account

  function Base(n: Nisd, labels: Labels): Labels {
    var b := labels["NISD_UUID" := n.uuid]["TYPE" := "NISD"];
    if n.roots == [] then b else b["ALT_NAME" := n.roots[0].altName]
  }

  function ChunkLabels(b: Labels, c: Chunk): Labels {
    b[VDEV := c.vdevUuid][CHUNK := Itoa(c.number)]
  }

  function NamedLabels(b: Labels, x: Named): Labels {
    b[NAME := x.name]
  }

  function ChunkEmissions(b: Labels, cs: seq<Chunk>): seq<Emission> {
    seq(|cs|, i requires 0 <= i < |cs| => Emission(cs[i].metrics, ChunkLabels(b, cs[i])))
  }

  function NamedEmissions(b: Labels, xs: seq<Named>): seq<Emission> {
    seq(|xs|, i requires 0 <= i < |xs| => Emission(xs[i].metrics, NamedLabels(b, xs[i])))
  }

  /** The code indexes the first manager and dereferences the system info unconditionally. */
  predicate Renderable(n: Nisd) {
    n.roots == [] || (n.managers != [] && n.sysInfo.Some?)
  }

  function HeadEmissions(n: Nisd, b: Labels): seq<Emission>
    requires Renderable(n) && n.roots != []
  {
    [Emission(n.managers[0], b), Emission(n.roots[0].metrics, b), Emission(n.sysInfo.value, b)]
  }

  /** Head records, then chunks, with `b`; then everything that is named, with `d`. */
  function Emissions(n: Nisd, b: Labels, d: Labels): (out: seq<Emission>)
    requires Renderable(n)
    ensures n.roots != [] ==> |out| == 3 + |n.chunks| + |n.buffers + n.tasks + n.merges|
  {
    if n.roots == [] then []
    else HeadEmissions(n, b) + ChunkEmissions(b, n.chunks) + NamedEmissions(d, n.buffers + n.tasks + n.merges)
  }

  /** What `Parse` emits: from the head records and the chunks to the named ones, whose labels have
      lost the chunk labels. */
  function Rendering(n: Nisd, labels: Labels): (out: seq<Emission>)
    requires Renderable(n)
    ensures n.roots == [] ==> out == []
    ensures n.roots != [] ==> |out| == 3 + |n.chunks| + |n.buffers + n.tasks + n.merges|
  {
    Emissions(n, Base(n, labels), Base(n, labels) - {VDEV, CHUNK})
  }

  /** Every record with the base labels plus its own. */
  function PureParse(n: Nisd, labels: Labels): seq<Emission>
    requires Renderable(n)
  {
    Emissions(n, Base(n, labels), Base(n, labels))
  }

  lemma NamedNext(d: Labels, xs: seq<Named>, i: nat)
    requires i < |xs|
    ensures NamedEmissions(d, xs[..i + 1]) ==
              NamedEmissions(d, xs[..i]) + [Emission(xs[i].metrics, NamedLabels(d, xs[i]))]
  {
  }

  lemma ChunkNext(b: Labels, cs: seq<Chunk>, i: nat)
    requires i < |cs|
    ensures ChunkEmissions(b, cs[..i + 1]) ==
              ChunkEmissions(b, cs[..i]) + [Emission(cs[i].metrics, ChunkLabels(b, cs[i]))]
  {
  }

  lemma NamedConcat(d: Labels, xs: seq<Named>, ys: seq<Named>)
    ensures NamedEmissions(d, xs + ys) == NamedEmissions(d, xs) + NamedEmissions(d, ys)
  {
  }

  /** The labels the caller's map is left with after the named records. */
  function LeftLabels(d: Labels, xs: seq<Named>): Labels {
    if xs == [] then d else NamedLabels(d, xs[|xs| - 1])
  }

  // The code

  method RenderNamed(xs: seq<Named>, labels: LabelMap, ghost d: Labels) returns (out: seq<Emission>)
    requires labels.m == d || (NAME in labels.m && labels.m == d[NAME := labels.m[NAME]])
    modifies labels
    ensures out == NamedEmissions(d, xs)
    ensures labels.m == if xs == [] then old(labels.m) else NamedLabels(d, xs[|xs| - 1])
  {
    out := [];
    for i := 0 to |xs|
      invariant out == NamedEmissions(d, xs[..i])
      invariant labels.m == if i == 0 then old(labels.m) else NamedLabels(d, xs[i - 1])
    {
      labels.m := labels.m[NAME := xs[i].name];
      assert labels.m == NamedLabels(d, xs[i]);
      NamedNext(d, xs, i);
      out := out + [Emission(xs[i].metrics, labels.m)];
    }
    assert xs[..|xs|] == xs;
  }

  method RenderAllNamed(n: Nisd, labels: LabelMap, ghost d: Labels) returns (out: seq<Emission>)
    requires labels.m == d
    modifies labels
    ensures out == NamedEmissions(d, n.buffers + n.tasks + n.merges)
    ensures labels.m == LeftLabels(d, n.buffers + n.tasks + n.merges)
  {
    out := RenderNamed(n.buffers, labels, d);
    var more := RenderNamed(n.tasks, labels, d);
    out := out + more;
    more := RenderNamed(n.merges, labels, d);
    out := out + more;
    NamedConcat(d, n.buffers, n.tasks);
    NamedConcat(d, n.buffers + n.tasks, n.merges);
  }

  method RenderChunks(cs: seq<Chunk>, labels: LabelMap) returns (out: seq<Emission>)
    modifies labels
    ensures out == ChunkEmissions(old(labels.m), cs)
    ensures labels.m == if cs == [] then old(labels.m) else ChunkLabels(old(labels.m), cs[|cs| - 1])
  {
    out := [];
    for i := 0 to |cs|
      invariant out == ChunkEmissions(old(labels.m), cs[..i])
      invariant labels.m == if i == 0 then old(labels.m) else ChunkLabels(old(labels.m), cs[i - 1])
    {
      labels.m := labels.m[VDEV := cs[i].vdevUuid];
      labels.m := labels.m[CHUNK := Itoa(cs[i].number)];
      assert labels.m == ChunkLabels(old(labels.m), cs[i]);
      ChunkNext(old(labels.m), cs, i);
      out := out + [Emission(cs[i].metrics, labels.m)];
    }
    assert cs[..|cs|] == cs;
  }

  /** `ok` is false when the code dies on a missing manager or system info. */
  method Parse(n: Nisd, labels: LabelMap) returns (out: seq<Emission>, ok: bool)
    modifies labels
    ensures ok == Renderable(n)
    ensures ok ==> out == Rendering(n, old(labels.m)) && Rendered(n, old(labels.m), out)
    ensures ok ==> labels.m ==
                     if n.roots == [] then Base(n, old(labels.m))
                     else LeftLabels(Base(n, old(labels.m)) - {VDEV, CHUNK}, n.buffers + n.tasks + n.merges)
  {
    out, ok := [], true;
    labels.m := labels.m["NISD_UUID" := n.uuid];
    labels.m := labels.m["TYPE" := "NISD"];
    if |n.roots| != 0 {
      labels.m := labels.m["ALT_NAME" := n.roots[0].altName];
      ghost var b := labels.m;
      assert b == Base(n, old(labels.m));
      if |n.managers| == 0 { return [], false; }
      out := out + [Emission(n.managers[0], labels.m)];
      out := out + [Emission(n.roots[0].metrics, labels.m)];
      if n.sysInfo.None? { return [], false; }
      out := out + [Emission(n.sysInfo.value, labels.m)];
      assert out == HeadEmissions(n, b);
      var more := RenderChunks(n.chunks, labels);
      out := out + more;
      labels.m := labels.m - {VDEV};
      labels.m := labels.m - {CHUNK};
      ghost var d := b - {VDEV, CHUNK};
      assert labels.m == d;
      more := RenderAllNamed(n, labels, d);
      out := out + more;
    }
    RenderedInOrder(n, old(labels.m));
  }

  // What it comes to

  function MetricsOf(xs: seq<Named>): seq<Metrics> {
    seq(|xs|, i requires 0 <= i < |xs| => xs[i].metrics)
  }

  function ChunkMetrics(cs: seq<Chunk>): seq<Metrics> {
    seq(|cs|, i requires 0 <= i < |cs| => cs[i].metrics)
  }

  function Records(out: seq<Emission>): seq<Metrics> {
    seq(|out|, i requires 0 <= i < |out| => out[i].record)
  }

  /** The labels every record carries: the NISD's own, and the caller's other ones. */
  predicate Common(n: Nisd, labels: Labels, got: Labels)
    requires n.roots != []
  {
    && "NISD_UUID" in got && got["NISD_UUID"] == n.uuid
    && "TYPE" in got && got["TYPE"] == "NISD"
    && "ALT_NAME" in got && got["ALT_NAME"] == n.roots[0].altName
    && (forall k :: k in labels && k !in {"NISD_UUID", "TYPE", "ALT_NAME", "VDEV_UUID", "CHUNK_NUM", "NAME"} ==>
          k in got && got[k] == labels[k])
    && (forall k :: k in got ==>
          k in labels || k in {"NISD_UUID", "TYPE", "ALT_NAME", "VDEV_UUID", "CHUNK_NUM", "NAME"})
  }

  /** What record i is labelled with besides: the head records with nothing of their own, chunks with
      their disk and number, named records with their name and no chunk labels. */
  predicate Own(n: Nisd, labels: Labels, got: Labels, i: nat)
    requires i < 3 + |n.chunks| + |n.buffers + n.tasks + n.merges|
  {
    if i < 3 then
      forall k :: k in {"VDEV_UUID", "CHUNK_NUM", "NAME"} ==>
        (k in got <==> k in labels) && (k in got ==> got[k] == labels[k])
    else if i < 3 + |n.chunks| then
      var c := n.chunks[i - 3];
      && "VDEV_UUID" in got && got["VDEV_UUID"] == c.vdevUuid
      && "CHUNK_NUM" in got && got["CHUNK_NUM"] == Itoa(c.number)
      && ("NAME" in got <==> "NAME" in labels) && ("NAME" in got ==> got["NAME"] == labels["NAME"])
    else
      var x := (n.buffers + n.tasks + n.merges)[i - 3 - |n.chunks|];
      && "NAME" in got && got["NAME"] == x.name
      && "VDEV_UUID" !in got && "CHUNK_NUM" !in got
  }

  /** Exactly the first manager, the first root entry, the system info, the chunks, the buffers, the
      tasks and the merges, in this order, each with the labels it should have. */
  predicate Rendered(n: Nisd, labels: Labels, out: seq<Emission>) {
    if n.roots == [] then out == []
    else
      && n.managers != [] && n.sysInfo.Some?
      && Records(out) == [n.managers[0], n.roots[0].metrics, n.sysInfo.value] + ChunkMetrics(n.chunks)
                         + MetricsOf(n.buffers) + MetricsOf(n.tasks) + MetricsOf(n.merges)
      && |out| == 3 + |n.chunks| + |n.buffers + n.tasks + n.merges|
      && forall i :: 0 <= i < |out| ==> Common(n, labels, out[i].labels) && Own(n, labels, out[i].labels, i)
  }

  lemma RecordsInOrder(n: Nisd, labels: Labels)
    requires Renderable(n) && n.roots != []
    ensures Records(Rendering(n, labels)) ==
              [n.managers[0], n.roots[0].metrics, n.sysInfo.value] + ChunkMetrics(n.chunks)
              + MetricsOf(n.buffers) + MetricsOf(n.tasks) + MetricsOf(n.merges)
  {
    var named := n.buffers + n.tasks + n.merges;
    assert MetricsOf(named) == MetricsOf(n.buffers) + MetricsOf(n.tasks) + MetricsOf(n.merges);
    var out := Rendering(n, labels);
    assert Records(out)[..3] == [n.managers[0], n.roots[0].metrics, n.sysInfo.value];
    assert Records(out)[3..3 + |n.chunks|] == ChunkMetrics(n.chunks);
    assert Records(out)[3 + |n.chunks|..] == MetricsOf(named);
  }

  lemma LabelsAreOwn(n: Nisd, labels: Labels, i: nat)
    requires Renderable(n) && n.roots != [] && i < |Rendering(n, labels)|
    ensures Common(n, labels, Rendering(n, labels)[i].labels) && Own(n, labels, Rendering(n, labels)[i].labels, i)
  {
    var b := Base(n, labels);
    var d := b - {VDEV, CHUNK};
    var named := n.buffers + n.tasks + n.merges;
    var got := Rendering(n, labels)[i].labels;
    if i < 3 {
      assert got == b;
    } else if i < 3 + |n.chunks| {
      assert got == ChunkLabels(b, n.chunks[i - 3]);
    } else {
      assert got == NamedLabels(d, named[i - 3 - |n.chunks|]);
    }
  }

  lemma RenderedInOrder(n: Nisd, labels: Labels)
    requires Renderable(n)
    ensures Rendered(n, labels, Rendering(n, labels))
  {
    if n.roots != [] {
      RecordsInOrder(n, labels);
      forall i: nat | i < |Rendering(n, labels)|
        ensures Common(n, labels, Rendering(n, labels)[i].labels) && Own(n, labels, Rendering(n, labels)[i].labels, i)
      {
        LabelsAreOwn(n, labels, i);
      }
    }
  }

  /** The reused map emits what the pure account does exactly when the caller's map has no chunk
      labels of its own to lose, or there is no named record to lose them. */
  lemma ReusedMapIsPureIff(n: Nisd, labels: Labels)
    requires Renderable(n)
    ensures Rendering(n, labels) == PureParse(n, labels) <==>
            n.roots == [] || n.buffers + n.tasks + n.merges == [] || (VDEV !in labels && CHUNK !in labels)
  {
    var b := Base(n, labels);
    var d := b - {VDEV, CHUNK};
    var named := n.buffers + n.tasks + n.merges;
    if VDEV !in labels && CHUNK !in labels {
      assert d == b;
    } else if n.roots != [] && named != [] {
      var k := 3 + |n.chunks|;
      var x, y := Emissions(n, b, d)[k], Emissions(n, b, b)[k];
      assert x == Emission(named[0].metrics, NamedLabels(d, named[0]));
      assert y == Emission(named[0].metrics, NamedLabels(b, named[0]));
      assert VDEV !in x.labels && CHUNK !in x.labels;
      assert VDEV in y.labels || CHUNK in y.labels;
    }
  }

  /** The metrics page starts from a map holding the node name alone. */
  lemma MetricsPageIsPure(n: Nisd, node: string)
    requires Renderable(n)
    ensures Rendering(n, map["NODE_NAME" := node]) == PureParse(n, map["NODE_NAME" := node])
  {
    ReusedMapIsPureIff(n, map["NODE_NAME" := node]);
  }
}
