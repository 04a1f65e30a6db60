/** The whole monitor as a transition system: one step is one lsof scan event, one inotify
    event, one iteration of `CleanEPs` or one iteration of `PollEPs`. */
module System {
  import opened Lookout
  import opened EndpointSpec
  import opened EndpointLemmas

  datatype Sys = Sys(lh: Lh, eps: map<Uuid, Ep>)

  /** What a step does to the one endpoint it concerns. */
  datatype Op = Sighting | Reply(id: Uuid) | Sweep | Probe

  datatype Action =
    | ScanBegin                                                  // lsofGen++
    | See(u: Uuid)                                               // the scan finds an open file of u
    | ScanEnd
    | Event(wd: int, name: string, parsed: Option<Uuid>)         // parsed: what uuid.Parse answers
    | Late(u: Uuid, id: Uuid)                                    // a completion on an endpoint looked up earlier
    | CleanOne(u: Uuid)
    | PollOne(u: Uuid)

  datatype Step = Step(act: Action, env: Env)

  datatype Target = Target(u: Uuid, op: Op)

  /** The decision part of `processEvent`: which endpoint, and whether it is added or completed. */
  function Dispatch(lh: Lh, wd: int, name: string, parsed: Option<Uuid>): Option<Target> {
    if wd == lh.rootWd then
      if parsed.Some? then Some(Target(parsed.value, Sighting)) else None
    else if wd !in lh.wmap then None
    else if "." <= name then None
    else if !(LOOKOUT_PREFIX <= name) then None
    else if parsed.None? then None
    else Some(Target(lh.wmap[wd], Reply(parsed.value)))
  }

  function Resolve(lh: Lh, a: Action): Option<Target> {
    match a
    case ScanBegin | ScanEnd => None
    case See(u) => Some(Target(u, Sighting))
    case Event(wd, name, parsed) => Dispatch(lh, wd, name, parsed)
    case Late(u, id) => Some(Target(u, Reply(id)))
    case CleanOne(u) => Some(Target(u, Sweep))
    case PollOne(u) => Some(Target(u, Probe))
  }

  function Before(sys: Sys, u: Uuid): Ep {
    if u in sys.eps then sys.eps[u] else NewEp(sys.lh, u)
  }

  /** Sighting is `AddEp`: the endpoint is made first if it is not known. */
  function EpStep(sys: Sys, t: Target, env: Env): Outcome<Pair> {
    var ep := Before(sys, t.u);
    match t.op
    case Sighting =>
      if t.u in sys.eps then Sight(sys.lh, ep, env) else ChangeState(sys.lh, ep, Init, env)
    case Reply(id) => CompletePair(sys.lh, ep, id, env)
    case Sweep => Clean(sys.lh, ep, env)
    case Probe => Poll(sys.lh, ep, env)
  }

  /** Store what an operation on one endpoint leaves behind. */
  function Put(sys: Sys, u: Uuid, r: Outcome<Pair>): Outcome<Sys> {
    var p :- r;
    Ok(Sys(p.lh, sys.eps[u := p.ep]))
  }

  function OnEndpoint(sys: Sys, t: Target, env: Env): Outcome<Sys> {
    Put(sys, t.u, EpStep(sys, t, env))
  }

  function Apply(sys: Sys, st: Step): Outcome<Sys> {
    if st.act.ScanBegin? then Ok(sys.(lh := sys.lh.(gen := sys.lh.gen + 1)))
    else
      match Resolve(sys.lh, st.act)
      case None => Ok(sys)
      case Some(t) => OnEndpoint(sys, t, st.env)
  }

  /** What an event on an endpoint's watch does, written out. */
  function Replied(sys: Sys, wd: int, name: string, parsed: Option<Uuid>, env: Env): Outcome<Sys> {
    if wd !in sys.lh.wmap || "." <= name || !(LOOKOUT_PREFIX <= name) || parsed.None? then Ok(sys)
    else
      var u := sys.lh.wmap[wd];
      Put(sys, u, CompletePair(sys.lh, Before(sys, u), parsed.value, env))
  }

  lemma EventIsReplied(sys: Sys, wd: int, name: string, parsed: Option<Uuid>, env: Env)
    requires wd != sys.lh.rootWd
    ensures Apply(sys, Step(Event(wd, name, parsed), env)) == Replied(sys, wd, name, parsed, env)
  {
  }

  function ApplyAll(sys: Sys, steps: seq<Step>): Outcome<Sys> {
    if steps == [] then Ok(sys)
    else
      var m :- ApplyAll(sys, steps[..|steps| - 1]);
      Apply(m, steps[|steps| - 1])
  }

  lemma ApplyAllSnoc(sys: Sys, steps: seq<Step>, st: Step)
    ensures var m := ApplyAll(sys, steps);
            ApplyAll(sys, steps + [st]) == if m.Ok? then Apply(m.value, st) else m
  {
    assert (steps + [st])[..|steps|] == steps;
  }

  /** The steps of one lsof scan that comes across `found`. */
  function SeeSteps(found: seq<Uuid>, envs: seq<Env>): seq<Step>
    requires |envs| == |found|
  {
    seq(|found|, i requires 0 <= i < |found| => Step(See(found[i]), envs[i]))
  }

  function ScanSteps(found: seq<Uuid>, envs: seq<Env>, begin: Env, end: Env): seq<Step>
    requires |envs| == |found|
  {
    [Step(ScanBegin, begin)] + SeeSteps(found, envs) + [Step(ScanEnd, end)]
  }

  /** The scan up to and including its first n sightings. */
  function ScanPrefix(found: seq<Uuid>, envs: seq<Env>, begin: Env, n: nat): seq<Step>
    requires n <= |envs| == |found|
  {
    [Step(ScanBegin, begin)] + SeeSteps(found[..n], envs[..n])
  }

  lemma ScanPrefixNext(sys: Sys, found: seq<Uuid>, envs: seq<Env>, begin: Env, n: nat)
    requires n < |envs| == |found|
    ensures ScanPrefix(found, envs, begin, n + 1) ==
              ScanPrefix(found, envs, begin, n) + [Step(See(found[n]), envs[n])]
    ensures var m := ApplyAll(sys, ScanPrefix(found, envs, begin, n));
            ApplyAll(sys, ScanPrefix(found, envs, begin, n + 1)) ==
            if m.Ok? then OnEndpoint(m.value, Target(found[n], Sighting), envs[n]) else m
  {
    var longer := ScanPrefix(found, envs, begin, n + 1);
    assert longer[..n + 1] == ScanPrefix(found, envs, begin, n);
    assert longer[n + 1] == Step(See(found[n]), envs[n]);
  }

  lemma ScanWhole(sys: Sys, found: seq<Uuid>, envs: seq<Env>, begin: Env, end: Env, n: nat)
    requires n <= |envs| == |found|
    ensures var all := ScanSteps(found, envs, begin, end);
            && ScanPrefix(found, envs, begin, n) <= all
            && (n == |found| ==> ApplyAll(sys, all) == ApplyAll(sys, ScanPrefix(found, envs, begin, n)))
  {
    assert found[..|found|] == found && envs[..|envs|] == envs;
    var all := ScanSteps(found, envs, begin, end);
    assert all[..|all| - 1] == ScanPrefix(found, envs, begin, |found|);
  }

  lemma ScanPrefixZero(sys: Sys, found: seq<Uuid>, envs: seq<Env>, begin: Env)
    requires |envs| == |found|
    ensures ApplyAll(sys, ScanPrefix(found, envs, begin, 0)) == Ok(sys.(lh := sys.lh.(gen := sys.lh.gen + 1)))
  {
    assert ScanPrefix(found, envs, begin, 0) == [Step(ScanBegin, begin)];
    assert [Step(ScanBegin, begin)][..0] == [];
  }

  // States and runs

  /** `owner` remembers every descriptor the kernel ever handed out and never shrinks: a removed
      watch survives in the kernel. `issued`, `consumed` and `expired` record command ids, `torn`
      those whose input file a PMDB query failed to write. */
  datatype State = State(
    sys: Sys,
    now: int,
    owner: map<int, string>,
    scanning: bool,
    issued: set<Uuid>,
    consumed: set<Uuid>,
    expired: set<Uuid>,
    torn: set<Uuid>)

  /** Asked to watch a path, the kernel answers with an error, with the descriptor it already
      has for that path, or with one it never handed out. */
  predicate KernelLaw(owner: map<int, string>, path: string, k: KernelReply) {
    k.Wd? ==> k.wd >= 0 && (k.wd in owner ==> owner[k.wd] == path)
  }

  predicate Guard(s: State, st: Step) {
    && st.env.now >= s.now
    && st.env.id1 !in s.issued && st.env.id2 !in s.issued && st.env.id1 != st.env.id2
    && st.env.id1 != NIL && st.env.id2 != NIL
    && (st.act.ScanBegin? ==> !s.scanning)
    && (st.act.See? || st.act.ScanEnd? ==> s.scanning)
    && (st.act.Late? || st.act.CleanOne? || st.act.PollOne? ==> st.act.u in s.sys.eps)
    && var t := Resolve(s.sys.lh, st.act);
       t.Some? ==> KernelLaw(s.owner, Xpath(s.sys.lh.ctl, t.value.u), st.env.kernel)
  }

  function Handed(lh: Lh): map<int, string> {
    map w | w in lh.wmap :: Xpath(lh.ctl, lh.wmap[w])
  }

  function PendingIds(sys: Sys, u: Uuid): set<Uuid> {
    Before(sys, u).pending.Keys
  }

  function Consumed(sys: Sys, t: Target): set<Uuid> {
    if t.op.Reply? && t.op.id in PendingIds(sys, t.u) then {t.op.id} else {}
  }

  function Expired(sys: Sys, t: Target, now: int): set<Uuid> {
    if t.op.Sweep? then PendingIds(sys, t.u) - FlushStaleCmds(Before(sys, t.u), now).pending.Keys else {}
  }

  /** The step issues a query to a PMDB endpoint. */
  predicate AsksPmdb(ep: Ep, op: Op, env: Env) {
    match op
    case Probe =>
      && ep.app == Pmdb && ep.pending == map[]
      && (ep.state in {HasIdentity, Running} || (ep.state == Down && Silent(ep, env.now)))
    case Reply(id) =>
      && id in ep.pending && ep.pending[id].op == Identify
      && var file := ReplyFile(ep.pending[id], id, env);
         file.File? && Names(file.doc, Pmdb)
    case _ => false
  }

  function TornNow(sys: Sys, t: Target, env: Env): set<Uuid> {
    if AsksPmdb(Before(sys, t.u), t.op, env) && !env.wrote1 then {env.id1} else {}
  }

  function Advance(s: State, st: Step, sys: Sys): State {
    var t := Resolve(s.sys.lh, st.act);
    State(
      sys,
      st.env.now,
      s.owner + Handed(sys.lh),
      if st.act.ScanBegin? then true else if st.act.ScanEnd? then false else s.scanning,
      if t.Some? then s.issued + PendingIds(sys, t.value.u) else s.issued,
      if t.Some? then s.consumed + Consumed(s.sys, t.value) else s.consumed,
      if t.Some? then s.expired + Expired(s.sys, t.value, st.env.now) else s.expired,
      if t.Some? then s.torn + TornNow(s.sys, t.value, st.env) else s.torn)
  }

  predicate Next(s: State, st: Step, s': State) {
    Guard(s, st) && Apply(s.sys, st).Ok? && s' == Advance(s, st, Apply(s.sys, st).value)
  }

  predicate Start(s: State) {
    && s.sys.lh.rootWd >= 0 && s.sys.lh.gen == 0 && s.sys.lh.wmap == map[] && s.sys.eps == map[]
    && s.owner == map[s.sys.lh.rootWd := s.sys.lh.ctl]
    && !s.scanning && s.issued == {} && s.consumed == {} && s.expired == {} && s.torn == {}
    && s.now > MINUTE
  }

  datatype Run = Run(states: seq<State>, steps: seq<Step>)

  predicate Follows(r: Run, i: nat)
    requires i < |r.steps| && |r.states| == |r.steps| + 1
  {
    Next(r.states[i], r.steps[i], r.states[i + 1])
  }

  predicate Valid(r: Run) {
    && |r.states| == |r.steps| + 1
    && Start(r.states[0])
    && forall i :: 0 <= i < |r.steps| ==> Follows(r, i)
  }

  // The invariant

  /** The index and the endpoints are exact inverses, and the root descriptor is never an
      endpoint's, so event dispatch is unambiguous. */
  predicate WatchIndex(s: State) {
    var lh, eps := s.sys.lh, s.sys.eps;
    && lh.rootWd >= 0 && -1 !in lh.wmap && lh.rootWd !in lh.wmap
    && lh.rootWd in s.owner && s.owner[lh.rootWd] == lh.ctl
    && (forall w :: w in lh.wmap ==>
          && lh.wmap[w] in eps && eps[lh.wmap[w]].watched && eps[lh.wmap[w]].wid == w
          && w in s.owner && s.owner[w] == Xpath(lh.ctl, lh.wmap[w]))
  }

  predicate Endpoints(s: State) {
    forall u :: u in s.sys.eps ==> s.sys.eps[u].uuid == u && Local(s.sys.lh, s.sys.eps[u], s.now)
  }

  predicate Pending(sys: Sys, u: Uuid, id: Uuid) {
    u in sys.eps && id in sys.eps[u].pending
  }

  /** Every issued id is in exactly one place: pending on exactly one endpoint, consumed by a
      completion, or expired. */
  ghost predicate Conserved(s: State) {
    && (forall u, id :: Pending(s.sys, u, id) ==> id in s.issued && id !in s.consumed && id !in s.expired)
    && (forall u, v, id :: Pending(s.sys, u, id) && Pending(s.sys, v, id) ==> u == v)
    && (forall id :: id in s.issued ==> id in s.consumed || id in s.expired || exists u :: Pending(s.sys, u, id))
    && s.consumed <= s.issued && s.expired <= s.issued && s.consumed !! s.expired
  }

  /** Among the pending commands the torn ones are those that carry the fallback query. */
  ghost predicate TornKnown(s: State) {
    && s.torn <= s.issued && NIL !in s.issued
    && (forall u, id :: Pending(s.sys, u, id) ==> (s.sys.eps[u].pending[id].op == RaftInfo <==> id in s.torn))
  }

  ghost predicate Inv(s: State) {
    WatchIndex(s) && Endpoints(s) && Conserved(s) && TornKnown(s) && s.now > MINUTE
  }

  // The invariant is inductive

  lemma LocalLater(lh: Lh, ep: Ep, now: int, later: int)
    requires Local(lh, ep, now) && now <= later
    ensures Local(lh, ep, later)
  {
  }

  /** The kernel's own law is what makes the descriptor fit: a path belongs to one endpoint. */
  lemma LawFits(s: State, u: Uuid, k: KernelReply)
    requires WatchIndex(s) && Endpoints(s) && KernelLaw(s.owner, Xpath(s.sys.lh.ctl, u), k)
    ensures KernelFits(s.sys.lh, Before(s.sys, u), k)
    ensures k.Wd? ==> k.wd != s.sys.lh.rootWd
  {
    var lh := s.sys.lh;
    XpathInjective(lh.ctl, u, u);
    if k.Wd? && k.wd in lh.wmap {
      XpathInjective(lh.ctl, u, lh.wmap[k.wd]);
    }
  }

  lemma TargetKept(s: State, st: Step, t: Target)
    requires Inv(s) && Guard(s, st) && Resolve(s.sys.lh, st.act) == Some(t)
    ensures t.op.Sighting? || t.u in s.sys.eps
    ensures Kept(s.sys.lh, Before(s.sys, t.u), st.env,
                 st.act.Late? && Before(s.sys, t.u).state == Removing, EpStep(s.sys, t, st.env))
    ensures KernelFits(s.sys.lh, Before(s.sys, t.u), st.env.kernel)
    ensures st.env.kernel.Wd? ==> st.env.kernel.wd != s.sys.lh.rootWd
    ensures t.u in s.sys.eps ==> Local(s.sys.lh, s.sys.eps[t.u], st.env.now)
  {
    var lh, env := s.sys.lh, st.env;
    LawFits(s, t.u, env.kernel);
    if t.u in s.sys.eps {
      var ep := s.sys.eps[t.u];
      LocalLater(lh, ep, s.now, env.now);
      match t.op
      case Sighting => SightKeeps(lh, ep, env);
      case Reply(id) =>
        assert !Pending(s.sys, t.u, env.id1);
        CompleteKeeps(lh, ep, id, env);
      case Sweep => CleanKeeps(lh, ep, env);
      case Probe => PollKeeps(lh, ep, env);
    } else {
      NewKeeps(lh, t.u, env);
    }
  }

  lemma NoFatal(s: State, st: Step)
    requires Inv(s) && Guard(s, st)
    ensures !Apply(s.sys, st).Fatal?
  {
    var t := Resolve(s.sys.lh, st.act);
    if t.Some? {
      TargetKept(s, st, t.value);
    }
  }

  lemma OthersKept(s: State, st: Step, t: Target, p: Pair, v: Uuid)
    requires Inv(s) && Guard(s, st) && Resolve(s.sys.lh, st.act) == Some(t)
    requires EpStep(s.sys, t, st.env) == Ok(p) && v in s.sys.eps && v != t.u
    ensures Local(p.lh, s.sys.eps[v], st.env.now)
  {
    TargetKept(s, st, t);
    LocalLater(s.sys.lh, s.sys.eps[v], s.now, st.env.now);
  }

  lemma IndexEntryNext(s: State, st: Step, t: Target, p: Pair, w: int)
    requires Inv(s) && Guard(s, st) && Resolve(s.sys.lh, st.act) == Some(t)
    requires EpStep(s.sys, t, st.env) == Ok(p) && w in p.lh.wmap
    ensures var eps := s.sys.eps[t.u := p.ep];
            p.lh.wmap[w] in eps && eps[p.lh.wmap[w]].watched && eps[p.lh.wmap[w]].wid == w
    ensures w != s.sys.lh.rootWd && w >= 0
    ensures w in s.owner ==> s.owner[w] == Xpath(s.sys.lh.ctl, p.lh.wmap[w])
  {
    TargetKept(s, st, t);
    var lh, ep := s.sys.lh, Before(s.sys, t.u);
    if w in lh.wmap - {ep.wid} {
      assert lh.wmap[w] != t.u;
      assert p.lh.wmap[w] == lh.wmap[w];
    } else {
      assert p.lh.wmap[w] == t.u && p.ep.wid == w;
    }
  }

  lemma WatchIndexNext(s: State, st: Step, s': State)
    requires Inv(s) && Next(s, st, s')
    ensures WatchIndex(s')
  {
    var t := Resolve(s.sys.lh, st.act);
    if t.Some? {
      TargetKept(s, st, t.value);
      var p := EpStep(s.sys, t.value, st.env).value;
      forall w | w in p.lh.wmap
        ensures var eps := s'.sys.eps;
                p.lh.wmap[w] in eps && eps[p.lh.wmap[w]].watched && eps[p.lh.wmap[w]].wid == w
        ensures w != s.sys.lh.rootWd && w >= 0
      {
        IndexEntryNext(s, st, t.value, p, w);
      }
      assert s'.sys.lh == p.lh;
    }
  }

  lemma EndpointsNext(s: State, st: Step, s': State)
    requires Inv(s) && Next(s, st, s')
    ensures Endpoints(s')
  {
    var t := Resolve(s.sys.lh, st.act);
    if t.Some? {
      TargetKept(s, st, t.value);
      var p := EpStep(s.sys, t.value, st.env).value;
      forall v | v in s'.sys.eps ensures s'.sys.eps[v].uuid == v && Local(s'.sys.lh, s'.sys.eps[v], s'.now) {
        if v != t.value.u {
          OthersKept(s, st, t.value, p, v);
        }
      }
    } else {
      forall v | v in s'.sys.eps ensures Local(s'.sys.lh, s'.sys.eps[v], s'.now) {
        LocalLater(s.sys.lh, s.sys.eps[v], s.now, s'.now);
      }
    }
  }
}
