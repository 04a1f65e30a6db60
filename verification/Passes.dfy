/** One whole pass of `CleanEPs` or `PollEPs`: a step per endpoint, in whatever order the map
    is walked. */
module Passes {
  import opened Lookout
  import opened EndpointSpec
  import opened EndpointLemmas
  import opened System
  import opened Effects

  datatype Visit = Visit(u: Uuid, env: Env)

  function VisitStep(polling: bool, v: Visit): Step {
    Step(if polling then PollOne(v.u) else CleanOne(v.u), v.env)
  }

  function PassSteps(polling: bool, vs: seq<Visit>): seq<Step> {
    seq(|vs|, i requires 0 <= i < |vs| => VisitStep(polling, vs[i]))
  }

  /** The clock does not go back along the pass, and no endpoint is visited twice. */
  predicate Orderly(vs: seq<Visit>, start: int) {
    && (forall i :: 0 <= i < |vs| ==> vs[i].env.now >= start)
    && (forall i, j :: 0 <= i < j < |vs| ==> vs[i].u != vs[j].u && vs[i].env.now <= vs[j].env.now)
  }

  /** The part of the system invariant that does not speak of history. */
  predicate Sound(sys: Sys, now: int) {
    && now > MINUTE
    && forall u :: u in sys.eps ==> sys.eps[u].uuid == u && Local(sys.lh, sys.eps[u], now)
  }

  /** Clock readings that do not go back. */
  predicate Ticking(envs: seq<Env>, start: int) {
    && (forall i :: 0 <= i < |envs| ==> envs[i].now >= start)
    && (forall i, j :: 0 <= i < j < |envs| ==> envs[i].now <= envs[j].now)
  }

  function Visited(vs: seq<Visit>): set<Uuid> {
    set i | 0 <= i < |vs| :: vs[i].u
  }

  /** What `CleanEPs` achieves for one endpoint, as of the moment it is visited: exactly the
      expired commands go, and every torn one with them. */
  ghost predicate Cleaned(ep: Ep, gen: nat, now: int, e: Ep) {
    && (e.state == Running ==> !Silent(e, now))
    && (forall k :: k in e.pending <==> k in ep.pending && !Overdue(ep.pending[k], now))
    && (forall k :: k in e.pending ==> e.pending[k] == ep.pending[k] && e.pending[k].op != RaftInfo)
    && (TwoScansOld(ep, gen) ==> e.state == Removing || ep.state == Running)
    && (ep.state == Running && Silent(ep, now) ==> e.state == Down)
  }

  /** What `PollEPs` achieves: one command pending, the old one if there was one; a new one is
      started now, or torn, exactly if the write failed for an identified PMDB endpoint. */
  predicate Polled(ep: Ep, env: Env, e: Ep) {
    && (e.state == Removing || |e.pending| == 1)
    && if ep.pending != map[] then e.pending == ep.pending
       else forall k :: k in e.pending ==>
              && k == env.id1
              && (e.pending[k].op == RaftInfo <==> ep.app == Pmdb && ep.state != Init && !env.wrote1)
              && e.pending[k].start == if e.pending[k].op == RaftInfo then ZERO else env.now
  }

  /** What one visit achieves for the endpoint visited. */
  ghost predicate Served(polling: bool, ep: Ep, gen: nat, env: Env, e: Ep) {
    if polling then Polled(ep, env, e) else Cleaned(ep, gen, env.now, e)
  }

  /** One visit: only the endpoint visited changes, and it is served. */
  ghost predicate VisitDone(sys: Sys, v: Visit, polling: bool, s: Sys) {
    && s.lh.gen == sys.lh.gen && s.eps.Keys == sys.eps.Keys
    && (forall w :: w in sys.eps && w != v.u ==> s.eps[w] == sys.eps[w])
    && (v.u in sys.eps ==> Served(polling, sys.eps[v.u], sys.lh.gen, v.env, s.eps[v.u]))
  }

  lemma OthersSound(sys: Sys, u: Uuid, env: Env, p: Pair)
    requires Sound(sys, env.now) && u in sys.eps
    requires Rewatched(sys.lh, sys.eps[u], KernelError, p) && Local(p.lh, p.ep, env.now)
    ensures Sound(Sys(p.lh, sys.eps[u := p.ep]), env.now)
  {
    forall w | w in sys.eps && w != u ensures Local(p.lh, sys.eps[w], env.now) {
      var ep := sys.eps[w];
      if ep.watched {
        assert sys.lh.wmap[ep.wid] == w;
      }
    }
  }

  /** Neither pass ever asks the kernel for a watch. */
  lemma PollIgnoresKernel(lh: Lh, ep: Ep, env: Env)
    requires Local(lh, ep, env.now)
    ensures Poll(lh, ep, env) == Poll(lh, ep, env.(kernel := KernelError))
  {
    if ep.state in {HasIdentity, Running, Down} {
      assert QueryApp(ep, env) == QueryApp(ep, env.(kernel := KernelError));
      QueryAppKeeps(ep, env);
    }
  }

  lemma CleanIgnoresKernel(lh: Lh, ep: Ep, env: Env)
    requires Local(lh, ep, env.now)
    ensures Clean(lh, ep, env) == Clean(lh, ep, env.(kernel := KernelError))
  {
  }

  /** One visit never fails, touches only the endpoint's own index entry, and serves it. */
  lemma CleanVisit(lh: Lh, ep: Ep, env: Env) returns (p: Pair)
    requires Local(lh, ep, env.now) && env.now > MINUTE
    ensures Clean(lh, ep, env) == Ok(p)
    ensures Local(p.lh, p.ep, env.now) && Rewatched(lh, ep, KernelError, p)
    ensures Cleaned(ep, lh.gen, env.now, p.ep)
  {
    CleanIgnoresKernel(lh, ep, env);
    CleanKeeps(lh, ep, env.(kernel := KernelError));
    SweepEffect(lh, ep, env.(kernel := KernelError));
    p := Clean(lh, ep, env).value;
  }

  lemma PollVisit(lh: Lh, ep: Ep, env: Env) returns (p: Pair)
    requires Local(lh, ep, env.now)
    ensures Poll(lh, ep, env) == Ok(p)
    ensures Local(p.lh, p.ep, env.now) && Rewatched(lh, ep, KernelError, p)
    ensures Polled(ep, env, p.ep)
  {
    PollIgnoresKernel(lh, ep, env);
    PollKeeps(lh, ep, env.(kernel := KernelError));
    ProbeEffect(lh, ep, env.(kernel := KernelError));
    p := Poll(lh, ep, env).value;
    OnePending(p.ep.pending);
  }

  lemma VisitServes(sys: Sys, v: Visit, polling: bool) returns (s: Sys)
    requires Sound(sys, v.env.now) && v.u in sys.eps
    ensures Apply(sys, VisitStep(polling, v)) == Ok(s)
    ensures Sound(s, v.env.now)
    ensures VisitDone(sys, v, polling, s)
  {
    var p;
    if polling {
      p := PollVisit(sys.lh, sys.eps[v.u], v.env);
    } else {
      p := CleanVisit(sys.lh, sys.eps[v.u], v.env);
    }
    OthersSound(sys, v.u, v.env, p);
    s := Sys(p.lh, sys.eps[v.u := p.ep]);
  }

  lemma SoundLater(sys: Sys, now: int, later: int)
    requires Sound(sys, now) && now <= later
    ensures Sound(sys, later)
  {
    forall u | u in sys.eps ensures Local(sys.lh, sys.eps[u], later) {
      LocalLater(sys.lh, sys.eps[u], now, later);
    }
  }

  ghost predicate PassDone(sys: Sys, vs: seq<Visit>, polling: bool, s: Sys) {
    && s.lh.gen == sys.lh.gen && s.eps.Keys == sys.eps.Keys
    && (forall w :: w in sys.eps && w !in Visited(vs) ==> s.eps[w] == sys.eps[w])
    && (forall i :: 0 <= i < |vs| && vs[i].u in sys.eps ==>
          Served(polling, sys.eps[vs[i].u], sys.lh.gen, vs[i].env, s.eps[vs[i].u]))
  }

  function EndOf(vs: seq<Visit>, start: int): int {
    if vs == [] then start else vs[|vs| - 1].env.now
  }

  lemma PassExtends(sys: Sys, vs: seq<Visit>, v: Visit, polling: bool, m: Sys, s: Sys)
    requires PassDone(sys, vs, polling, m) && VisitDone(m, v, polling, s)
    requires v.u in sys.eps && v.u !in Visited(vs)
    ensures PassDone(sys, vs + [v], polling, s)
  {
    assert Visited(vs + [v]) == Visited(vs) + {v.u} by {
      assert forall i :: 0 <= i < |vs| ==> (vs + [v])[i] == vs[i];
      assert (vs + [v])[|vs|] == v;
    }
    forall i | 0 <= i < |vs| + 1 && (vs + [v])[i].u in sys.eps
      ensures Served(polling, sys.eps[(vs + [v])[i].u], sys.lh.gen, (vs + [v])[i].env, s.eps[(vs + [v])[i].u])
    {
      if i < |vs| {
        assert vs[i].u in Visited(vs);
      }
    }
  }

  lemma PassOnce(sys: Sys, vs: seq<Visit>, v: Visit, polling: bool, start: int, m: Sys) returns (s: Sys)
    requires PassDone(sys, vs, polling, m) && Sound(m, EndOf(vs, start))
    requires EndOf(vs, start) <= v.env.now && v.u in sys.eps && v.u !in Visited(vs)
    ensures Apply(m, VisitStep(polling, v)) == Ok(s)
    ensures PassDone(sys, vs + [v], polling, s)
    ensures Sound(s, v.env.now)
  {
    SoundLater(m, EndOf(vs, start), v.env.now);
    s := VisitServes(m, v, polling);
    PassExtends(sys, vs, v, polling, m, s);
  }

  lemma HeadOrderly(vs: seq<Visit>, v: Visit, start: int)
    requires Orderly(vs + [v], start)
    ensures Orderly(vs, start) && EndOf(vs, start) <= v.env.now
    ensures v.u !in Visited(vs) && Visited(vs + [v]) == Visited(vs) + {v.u}
  {
    var all := vs + [v];
    assert all[|vs|] == v;
    assert forall i :: 0 <= i < |vs| ==> all[i] == vs[i];
  }

  lemma ApplyAllAppend(sys: Sys, polling: bool, vs: seq<Visit>, v: Visit, m: Sys, s: Sys)
    requires ApplyAll(sys, PassSteps(polling, vs)) == Ok(m) && Apply(m, VisitStep(polling, v)) == Ok(s)
    ensures ApplyAll(sys, PassSteps(polling, vs + [v])) == Ok(s)
  {
    var steps := PassSteps(polling, vs + [v]);
    assert steps[..|steps| - 1] == PassSteps(polling, vs);
  }

  /** A whole pass, in any order, does to each endpoint exactly what its own visit does. */
  lemma {:induction false} WholePass(sys: Sys, vs: seq<Visit>, polling: bool, start: int) returns (s: Sys)
    requires Sound(sys, start) && Orderly(vs, start) && Visited(vs) <= sys.eps.Keys
    ensures ApplyAll(sys, PassSteps(polling, vs)) == Ok(s)
    ensures PassDone(sys, vs, polling, s)
    ensures Sound(s, EndOf(vs, start))
  {
    if vs == [] {
      s := sys;
    } else {
      var n := |vs| - 1;
      var head, v := vs[..n], vs[n];
      assert vs == head + [v];
      HeadOrderly(head, v, start);
      var m := WholePass(sys, head, polling, start);
      s := PassOnce(sys, head, v, polling, start, m);
      ApplyAllAppend(sys, polling, head, v, m, s);
    }
  }

  /** Removing, or exactly one pending command, which had not expired by `since` if and only if it
      was not torn, and then by the poll itself. */
  ghost predicate Unwedged(ep: Ep, since: int, poll: Env) {
    && (ep.state == Removing || |ep.pending| == 1)
    && forall k :: k in ep.pending ==>
         && (Overdue(ep.pending[k], since) <==> ep.pending[k].op == RaftInfo)
         && (ep.pending[k].op == RaftInfo ==> k == poll.id1 && !poll.wrote1)
  }

  lemma CleanedThenPolled(ep: Ep, gen: nat, now: int, e: Ep, env: Env, e': Ep)
    requires Cleaned(ep, gen, now, e) && Polled(e, env, e') && MINUTE < now <= env.now
    ensures Unwedged(e', now, env)
  {
  }

  lemma IterationServes(sys: Sys, cs: seq<Visit>, ps: seq<Visit>, start: int, c: Sys, s: Sys, i: nat, j: nat)
    requires Orderly(cs, start) && Visited(cs) == Visited(ps) == sys.eps.Keys && Orderly(ps, EndOf(cs, start))
    requires start > MINUTE
    requires PassDone(sys, cs, false, c) && PassDone(c, ps, true, s)
    requires i < |cs| && j < |ps| && cs[i].u == ps[j].u
    ensures cs[i].u in s.eps && Unwedged(s.eps[cs[i].u], cs[i].env.now, ps[j].env)
  {
    var u := cs[i].u;
    assert u in Visited(cs);
    assert Served(false, sys.eps[u], sys.lh.gen, cs[i].env, c.eps[u]);
    assert Served(true, c.eps[u], c.lh.gen, ps[j].env, s.eps[u]);
    CleanedThenPolled(sys.eps[u], sys.lh.gen, cs[i].env.now, c.eps[u], ps[j].env, s.eps[u]);
  }

  // What the loops over the map need

  predicate Distinct(vs: seq<Visit>) {
    forall i, j :: 0 <= i < j < |vs| ==> vs[i].u != vs[j].u
  }

  function EnvsOf(vs: seq<Visit>): seq<Env> {
    seq(|vs|, i requires 0 <= i < |vs| => vs[i].env)
  }

  function EndEnvs(envs: seq<Env>, start: int): int {
    if envs == [] then start else envs[|envs| - 1].now
  }

  lemma SplitTicking(a: seq<Env>, b: seq<Env>, start: int)
    requires Ticking(a + b, start)
    ensures Ticking(a, start)
    ensures Ticking(b, EndEnvs(a, start))
  {
    var all := a + b;
    assert forall i :: 0 <= i < |a| ==> all[i] == a[i];
    assert forall i :: 0 <= i < |b| ==> all[|a| + i] == b[i];
  }

  /** How far a walk over the map has come: `left` are the endpoints still to visit. */
  ghost predicate Walked(vs: seq<Visit>, keys: set<Uuid>, left: set<Uuid>, envs: seq<Env>) {
    && left <= keys && Visited(vs) == keys - left && Distinct(vs)
    && |vs| + |left| == |envs|
    && EnvsOf(vs) == envs[..|vs|]
  }

  lemma NoneVisited(keys: set<Uuid>, envs: seq<Env>)
    requires |keys| == |envs|
    ensures Walked([], keys, keys, envs)
  {
  }

  lemma VisitedNext(vs: seq<Visit>, v: Visit)
    ensures Visited(vs + [v]) == Visited(vs) + {v.u}
    ensures EnvsOf(vs + [v]) == EnvsOf(vs) + [v.env]
  {
    var all := vs + [v];
    assert all[|vs|] == v && forall i :: 0 <= i < |vs| ==> all[i] == vs[i];
  }

  lemma OneLess(left: set<Uuid>, u: Uuid)
    requires u in left
    ensures |left - {u}| == |left| - 1
  {
  }

  lemma DistinctNext(vs: seq<Visit>, v: Visit)
    requires Distinct(vs) && v.u !in Visited(vs)
    ensures Distinct(vs + [v])
  {
    forall i, j | 0 <= i < j < |vs| + 1 ensures (vs + [v])[i].u != (vs + [v])[j].u {
      if j == |vs| {
        assert vs[i].u in Visited(vs);
      }
    }
  }

  lemma KeysNext(keys: set<Uuid>, left: set<Uuid>, u: Uuid)
    requires left <= keys && u in left
    ensures keys - (left - {u}) == keys - left + {u}
  {
  }

  lemma EnvsNext(envs: seq<Env>, n: nat)
    requires n < |envs|
    ensures envs[..n] + [envs[n]] == envs[..n + 1]
  {
  }

  lemma WalkedNext(vs: seq<Visit>, keys: set<Uuid>, left: set<Uuid>, envs: seq<Env>, u: Uuid)
    requires Walked(vs, keys, left, envs) && u in left
    ensures |vs| < |envs| && Walked(vs + [Visit(u, envs[|vs|])], keys, left - {u}, envs)
  {
    OneLess(left, u);
    var v := Visit(u, envs[|vs|]);
    VisitedNext(vs, v);
    DistinctNext(vs, v);
    KeysNext(keys, left, u);
    EnvsNext(envs, |vs|);
  }

  /** What one visit does to the endpoint visited. */
  function VisitResult(sys: Sys, polling: bool, v: Visit): Outcome<Pair> {
    if polling then Poll(sys.lh, Before(sys, v.u), v.env) else Clean(sys.lh, Before(sys, v.u), v.env)
  }

  lemma VisitIsPut(sys: Sys, polling: bool, v: Visit)
    ensures Apply(sys, VisitStep(polling, v)) == Put(sys, v.u, VisitResult(sys, polling, v))
  {
  }

  lemma VisitNext(sys: Sys, polling: bool, vs: seq<Visit>, v: Visit)
    ensures var m := ApplyAll(sys, PassSteps(polling, vs));
            ApplyAll(sys, PassSteps(polling, vs + [v])) ==
            if m.Ok? then Put(m.value, v.u, VisitResult(m.value, polling, v)) else m
  {
    assert PassSteps(polling, vs + [v])[..|vs|] == PassSteps(polling, vs);
    var m := ApplyAll(sys, PassSteps(polling, vs));
    if m.Ok? {
      VisitIsPut(m.value, polling, v);
    }
  }

  /** A walk from a sound state does not fail, and serves every endpoint it visits. */
  ghost predicate WalkServes(sys: Sys, vs: seq<Visit>, polling: bool, start: int, s: Sys) {
    Orderly(vs, start) && PassDone(sys, vs, polling, s) && Sound(s, EndOf(vs, start))
  }

  lemma WalkSound(sys: Sys, vs: seq<Visit>, polling: bool, left: set<Uuid>, envs: seq<Env>, start: int) returns (s: Sys)
    requires Sound(sys, start) && Ticking(envs, start) && Walked(vs, sys.eps.Keys, left, envs)
    ensures ApplyAll(sys, PassSteps(polling, vs)) == Ok(s)
    ensures WalkServes(sys, vs, polling, start, s)
  {
    assert forall i :: 0 <= i < |vs| ==> vs[i].env == EnvsOf(vs)[i] == envs[i];
    s := WholePass(sys, vs, polling, start);
  }

  /** Every endpoint was cleaned and polled, and is left with its command pending or in Removing. */
  ghost predicate IterationServed(cs: seq<Visit>, ps: seq<Visit>, s: Sys) {
    && Visited(cs) == Visited(ps) == s.eps.Keys
    && forall i, j :: 0 <= i < |cs| && 0 <= j < |ps| && cs[i].u == ps[j].u ==>
         cs[i].u in s.eps && Unwedged(s.eps[cs[i].u], cs[i].env.now, ps[j].env)
  }

  lemma EndsAlike(vs: seq<Visit>, envs: seq<Env>, start: int)
    requires EnvsOf(vs) == envs
    ensures EndOf(vs, start) == EndEnvs(envs, start)
  {
  }

  lemma Iterated(sys: Sys, cs: seq<Visit>, ps: seq<Visit>, start: int, c: Sys, s: Sys)
    requires WalkServes(sys, cs, false, start, c) && WalkServes(c, ps, true, EndOf(cs, start), s)
    requires Visited(cs) == Visited(ps) == sys.eps.Keys && start > MINUTE
    ensures IterationServed(cs, ps, s)
  {
    forall i, j | 0 <= i < |cs| && 0 <= j < |ps| && cs[i].u == ps[j].u
      ensures cs[i].u in s.eps && Unwedged(s.eps[cs[i].u], cs[i].env.now, ps[j].env)
    {
      IterationServes(sys, cs, ps, start, c, s, i, j);
    }
  }
}
