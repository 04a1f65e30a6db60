/** Runs that exist: every edge of the lifecycle is taken by some run, and so is the overwriting
    of a pending command. Built step by step around one endpoint. */
module Witness {
  import opened Lookout
  import opened EndpointSpec
  import opened EndpointLemmas
  import opened System
  import opened Effects
  import opened Runs

  const U: Uuid := "aaaaaaaa-aaaa-4aaa-8aaa-aaaaaaaaaaaa"
  const CTL := "/ctl"
  const SPARE: Uuid := "bbbbbbbb-bbbb-4bbb-8bbb-bbbbbbbbbbbb"
  const HEX := ['1', '2', '3', '4', '5', '6', '7', '8', '9', 'c', 'd', 'e']

  /** The id the n-th step may issue, a version 4 uuid. */
  function Id(n: nat): Uuid
    requires n < |HEX|
  {
    seq(36, i requires i >= 0 => if DashAt(i) then '-' else if i == 14 then '4' else if i == 19 then '8' else HEX[n])
  }

  lemma IdsDiffer(n: nat)
    requires n < |HEX|
    ensures Id(n) != SPARE && Id(n) != NIL
    ensures forall m :: 0 <= m < |HEX| && m != n ==> Id(m) != Id(n)
  {
    assert Id(n)[0] == HEX[n] && SPARE[0] == 'b' && NIL[0] == '0';
    forall m | 0 <= m < |HEX| && m != n ensures Id(m) != Id(n) {
      assert Id(m)[0] == HEX[m];
    }
  }

  function Last(r: Run): State
    requires |r.states| == |r.steps| + 1
  {
    r.states[|r.steps|]
  }

  function With(r: Run, st: Step, s: State): Run {
    Run(r.states + [s], r.steps + [st])
  }

  /** r' is r and one step more. */
  predicate Extends(r: Run, st: Step, r': Run) {
    |r.states| == |r.steps| + 1 && |r'.states| == |r'.steps| + 1 && r' == With(r, st, Last(r'))
  }

  lemma FollowsStill(r: Run, st: Step, s: State, i: nat)
    requires |r.states| == |r.steps| + 1 && i < |r.steps| && Follows(r, i)
    ensures Follows(With(r, st, s), i)
  {
    var r' := With(r, st, s);
    assert r'.states[i] == r.states[i] && r'.states[i + 1] == r.states[i + 1] && r'.steps[i] == r.steps[i];
  }

  lemma Extend(r: Run, st: Step, s: State)
    requires Valid(r) && Next(Last(r), st, s)
    ensures Valid(With(r, st, s)) && Last(With(r, st, s)) == s
    ensures With(r, st, s).states[|r.steps|] == Last(r)
  {
    var r', n := With(r, st, s), |r.steps|;
    assert r'.states[n] == Last(r) && r'.states[n + 1] == s && r'.steps[n] == st;
    forall i | 0 <= i < |r'.steps| ensures Follows(r', i) {
      if i < n {
        FollowsStill(r, st, s, i);
      }
    }
  }

  /** U is the only endpoint, no scan is under way, and Id(n) and later ids are still fresh. */
  ghost predicate Solo(s: State, n: nat, ep: Ep) {
    && s.sys.eps == map[U := ep] && s.sys.lh.ctl == CTL && s.sys.lh.rootWd == 1 && !s.scanning
    && (2 in s.owner ==> s.owner[2] == Xpath(CTL, U))
    && SPARE !in s.issued
    && (forall m :: n <= m < |HEX| ==> Id(m) !in s.issued)
  }

  ghost predicate At(r: Run, n: nat, ep: Ep) {
    Valid(r) && Solo(Last(r), n, ep)
  }

  function EnvAt(n: nat, now: int, wrote: bool, file: OutFile): Env
    requires n < |HEX|
  {
    Env(now, Id(n), SPARE, wrote, true, Wd(2), file, file)
  }

  function StartState(): State {
    State(Sys(Lh(CTL, 1, 0, map[]), map[]), MINUTE + 1, map[1 := CTL], false, {}, {}, {}, {})
  }

  lemma MayMove(s: State, n: nat, ep: Ep, act: Action, op: Op, env: Env)
    requires Inv(s) && Solo(s, n, ep) && n < |HEX| && env == EnvAt(n, env.now, env.wrote1, env.out) && env.now >= s.now
    requires Resolve(s.sys.lh, act) == Some(Target(U, op)) && !act.See?
    ensures Guard(s, Step(act, env))
  {
    IdsDiffer(n);
  }

  /** One more step on U, as far as the state goes. */
  lemma Move(s: State, ep: Ep, act: Action, op: Op, env: Env) returns (s': State, e: Ep)
    requires Inv(s) && Guard(s, Step(act, env)) && s.sys.eps == map[U := ep] && env.kernel.Wd?
    requires Resolve(s.sys.lh, act) == Some(Target(U, op))
    ensures Next(s, Step(act, env), s') && s'.sys.eps == map[U := e]
    ensures EpStep(s.sys, Target(U, op), env) == Ok(Pair(s'.sys.lh, e))
  {
    var st, t := Step(act, env), Target(U, op);
    TargetKept(s, st, t);
    var p := EpStep(s.sys, t, env).value;
    e := p.ep;
    Stores(s.sys, ep, st, t, p);
    s' := Advance(s, st, Sys(p.lh, map[U := e]));
  }

  lemma Stores(sys: Sys, ep: Ep, st: Step, t: Target, p: Pair)
    requires sys.eps == map[U := ep] && Resolve(sys.lh, st.act) == Some(t) && t.u == U
    requires EpStep(sys, t, st.env) == Ok(p)
    ensures Apply(sys, st) == Ok(Sys(p.lh, map[U := p.ep]))
  {
    assert sys.eps[U := p.ep] == map[U := p.ep];
  }

  lemma BeforeMove(s: State, ep: Ep, st: Step, op: Op)
    requires Inv(s) && Guard(s, st) && s.sys.eps == map[U := ep]
    requires Resolve(s.sys.lh, st.act) == Some(Target(U, op))
    ensures Local(s.sys.lh, ep, st.env.now) && KernelFits(s.sys.lh, ep, st.env.kernel)
    ensures st.env.id1 !in ep.pending
  {
    TargetKept(s, st, Target(U, op));
    assert !Pending(s.sys, U, st.env.id1);
  }

  lemma IdsStillFree(s: State, n: nat, ep: Ep, st: Step, s': State, e: Ep)
    requires Inv(s) && Solo(s, n, ep) && n < |HEX| && st.env.id1 == Id(n)
    requires Next(s, st, s') && s'.sys.eps == map[U := e]
    requires Resolve(s.sys.lh, st.act).Some? && Resolve(s.sys.lh, st.act).value.u == U
    ensures s'.issued <= s.issued + {Id(n)}
  {
    CommandNext(s, st, s', Resolve(s.sys.lh, st.act).value);
    forall k | k in e.pending && k != Id(n) ensures k in s.issued {
      assert Pending(s.sys, U, k);
    }
  }

  lemma OwnerStill(s: State, st: Step, s': State, e: Ep)
    requires Inv(s') && Next(s, st, s') && s'.sys.eps == map[U := e] && s'.sys.lh.ctl == CTL
    requires 2 in s.owner ==> s.owner[2] == Xpath(CTL, U)
    ensures 2 in s'.owner ==> s'.owner[2] == Xpath(CTL, U)
  {
    if 2 in s'.owner && 2 !in s.owner {
      assert s'.sys.lh.wmap[2] == U;
    }
  }

  lemma HandlerStays(s: State, st: Step, s': State)
    requires Inv(s) && Next(s, st, s') && Resolve(s.sys.lh, st.act).Some?
    ensures s'.sys.lh.ctl == s.sys.lh.ctl && s'.sys.lh.rootWd == s.sys.lh.rootWd && s'.sys.lh.gen == s.sys.lh.gen
    ensures s'.now == st.env.now && (!s.scanning ==> !s'.scanning)
  {
    TargetKept(s, st, Resolve(s.sys.lh, st.act).value);
  }

  lemma SoloNext(s: State, n: nat, ep: Ep, s': State, e: Ep)
    requires Solo(s, n, ep) && n < |HEX| && s'.sys.eps == map[U := e]
    requires s'.sys.lh.ctl == s.sys.lh.ctl && s'.sys.lh.rootWd == s.sys.lh.rootWd && !s'.scanning
    requires 2 in s'.owner ==> s'.owner[2] == Xpath(CTL, U)
    requires s'.issued <= s.issued + {Id(n)}
    ensures Solo(s', n + 1, e)
  {
    IdsDiffer(n);
  }

  lemma StillSolo(s: State, n: nat, ep: Ep, st: Step, s': State, e: Ep)
    requires Inv(s) && Inv(s') && Solo(s, n, ep) && n < |HEX| && st.env.id1 == Id(n)
    requires Next(s, st, s') && s'.sys.eps == map[U := e]
    requires Resolve(s.sys.lh, st.act).Some? && Resolve(s.sys.lh, st.act).value.u == U
    ensures Solo(s', n + 1, e) && s'.sys.lh.gen == s.sys.lh.gen && s'.now == st.env.now
  {
    IdsStillFree(s, n, ep, st, s', e);
    HandlerStays(s, st, s');
    OwnerStill(s, st, s', e);
    SoloNext(s, n, ep, s', e);
  }

  /** One more step on U. */
  lemma Do(r: Run, n: nat, ep: Ep, act: Action, op: Op, env: Env) returns (r': Run, e: Ep)
    requires At(r, n, ep) && n < |HEX| && env == EnvAt(n, env.now, env.wrote1, env.out) && env.now >= Last(r).now
    requires Resolve(Last(r).sys.lh, act) == Some(Target(U, op)) && !act.See?
    ensures At(r', n + 1, e) && Extends(r, Step(act, env), r') && Last(r').now == env.now
    ensures EpStep(Last(r).sys, Target(U, op), env) == Ok(Pair(Last(r').sys.lh, e))
    ensures Last(r').sys.lh.gen == Last(r).sys.lh.gen
    ensures Local(Last(r).sys.lh, ep, env.now) && KernelFits(Last(r).sys.lh, ep, env.kernel)
    ensures env.id1 !in ep.pending
  {
    var s := Last(r);
    Reachable(r, |r.steps|);
    var s';
    MayMove(s, n, ep, act, op, env);
    BeforeMove(s, ep, Step(act, env), op);
    s', e := Move(s, ep, act, op, env);
    Extend(r, Step(act, env), s');
    r' := With(r, Step(act, env), s');
    InvNext(s, Step(act, env), s');
    StillSolo(s, n, ep, Step(act, env), s', e);
  }

  /** The n-th step brings Id(n). */
  predicate Numbered(r: Run) {
    |r.steps| <= |HEX| && forall j :: 0 <= j < |r.steps| ==> r.steps[j].env.id1 == Id(j)
  }

  // What can be done to U

  function Created(): Ep {
    Ep(U, Unrecognized, Init, MINUTE + 1, map[], 0, true, 2)
  }

  function CreateStep(): Step {
    Step(Event(1, U, Some(U)), EnvAt(0, MINUTE + 1, true, Unreadable))
  }

  lemma CreateApplies()
    ensures Apply(StartState().sys, CreateStep()) == Ok(Sys(Lh(CTL, 1, 0, map[2 := U]), map[U := Created()]))
  {
    var sys, env := StartState().sys, CreateStep().env;
    assert ChangeState(sys.lh, NewEp(sys.lh, U), Init, env) == Ok(Pair(Lh(CTL, 1, 0, map[2 := U]), Created()));
    assert sys.eps[U := Created()] == map[U := Created()];
  }

  /** The first step of all: U's directory appears. */
  lemma Create() returns (r: Run, e: Ep)
    ensures At(r, 1, e) && e.state == Init && e.pending == map[] && |r.steps| == 1 && Numbered(r)
  {
    var s, st := StartState(), CreateStep();
    e := Created();
    CreateApplies();
    IdsDiffer(0);
    XpathInjective(CTL, U, U);
    var s' := Advance(s, st, Sys(Lh(CTL, 1, 0, map[2 := U]), map[U := e]));
    Extend(Run([s], []), st, s');
    r := With(Run([s], []), st, s');
  }

  /** U's directory is seen again. */
  lemma SeeAgain(r: Run, n: nat, ep: Ep) returns (r': Run, e: Ep, act: Action)
    requires At(r, n, ep) && n < |HEX|
    ensures At(r', n + 1, e) && Extends(r, Step(act, EnvAt(n, Last(r).now, true, Unreadable)), r') && !act.Late?
    ensures e.state == (if ep.state == Removing then Init else ep.state)
    ensures e.pending == ep.pending && Last(r').now == Last(r).now
  {
    act := Event(1, U, Some(U));
    var env := EnvAt(n, Last(r).now, true, Unreadable);
    r', e := Do(r, n, ep, act, Sighting, env);
    SightKeeps(Last(r).sys.lh, ep, env);
  }

  /** One command is pending, of this kind and, unless torn, started now. */
  predicate OnlyCommand(m: map<Uuid, Cmd>, id: Uuid, op: CmdOp, now: int) {
    m.Keys == {id} && m[id].op == op && (op != RaftInfo ==> m[id].start == now)
  }

  function QueryOf(app: App, wrote: bool): CmdOp
    requires app != Unrecognized
  {
    if app == Pmdb && !wrote then RaftInfo else InfoOf(app)
  }

  lemma AskedOnly(u: Uuid, app: App, env: Env, m: map<Uuid, Cmd>)
    requires Asked(u, app, env, m)
    ensures app != Unrecognized && OnlyCommand(m, env.id1, QueryOf(app, env.wrote1), env.now)
  {
  }

  lemma PollResult(lh: Lh, ep: Ep, env: Env)
    requires Local(lh, ep, env.now) && KernelFits(lh, ep, env.kernel)
    requires ep.pending == map[] && ep.state in {Init, Down}
    ensures Poll(lh, ep, env).Ok?
    ensures var e := Poll(lh, ep, env).value.ep;
            && e.state == ep.state
            && (ep.state == Init ==> OnlyCommand(e.pending, env.id1, Identify, env.now))
            && (ep.state == Down ==>
                  ep.app != Unrecognized &&
                  OnlyCommand(e.pending, env.id1, QueryOf(ep.app, env.wrote1), env.now))
  {
    ProbeEffect(lh, ep, env);
    if ep.state == Down {
      AskedOnly(ep.uuid, ep.app, env, Poll(lh, ep, env).value.ep.pending);
    }
  }

  lemma Ask(r: Run, n: nat, ep: Ep, wrote: bool) returns (r': Run, e: Ep)
    requires At(r, n, ep) && n < |HEX| && ep.pending == map[] && ep.state in {Init, Down}
    ensures At(r', n + 1, e) && Extends(r, Step(PollOne(U), EnvAt(n, Last(r).now, wrote, Unreadable)), r')
    ensures e.state == ep.state && Last(r').now == Last(r).now
    ensures ep.state == Init ==> OnlyCommand(e.pending, Id(n), Identify, Last(r).now)
    ensures ep.state == Down ==>
              ep.app != Unrecognized && OnlyCommand(e.pending, Id(n), QueryOf(ep.app, wrote), Last(r).now)
  {
    var env := EnvAt(n, Last(r).now, wrote, Unreadable);
    r', e := Do(r, n, ep, PollOne(U), Probe, env);
    PollResult(Last(r).sys.lh, ep, env);
  }

  lemma ReplyResult(lh: Lh, ep: Ep, id: Uuid, env: Env)
    requires Local(lh, ep, env.now) && KernelFits(lh, ep, env.kernel) && env.id1 !in ep.pending
    requires id in ep.pending && env.nilOut == env.out && CompletePair(lh, ep, id, env).Ok?
    ensures var e := CompletePair(lh, ep, id, env).value.ep;
            && e.state == AnsweredState(ep.state, ep.pending[id], env.out)
            && (if ep.pending[id].op == Identify && Answers(ep.pending[id], env.out) then
                  && Names(env.out.doc, e.app)
                  && OnlyCommand(e.pending, env.id1, QueryOf(e.app, env.wrote1), env.now)
                else e.pending == map[])
  {
    CompleteKeeps(lh, ep, id, env);
    var e := CompletePair(lh, ep, id, env).value.ep;
    if ep.pending[id].op == Identify && Answers(ep.pending[id], env.out) {
      AskedOnly(ep.uuid, e.app, env, e.pending);
    }
  }

  /** A reply, arriving through inotify or, when late, after the endpoint was looked up. */
  lemma AnswerIt(r: Run, n: nat, ep: Ep, id: Uuid, late: bool, wrote: bool, file: OutFile)
    returns (r': Run, e: Ep, act: Action)
    requires At(r, n, ep) && n < |HEX| && id in ep.pending && (late || ep.watched)
    ensures At(r', n + 1, e) && Extends(r, Step(act, EnvAt(n, Last(r).now, wrote, file)), r')
    ensures (act.Late? <==> late) && Last(r').now == Last(r).now
    ensures e.state == AnsweredState(ep.state, ep.pending[id], file)
    ensures if ep.pending[id].op == Identify && Answers(ep.pending[id], file)
            then Names(file.doc, e.app) && OnlyCommand(e.pending, Id(n), QueryOf(e.app, wrote), Last(r).now)
            else e.pending == map[]
  {
    var env := EnvAt(n, Last(r).now, wrote, file);
    act := ReplyAction(r, n, ep, id, late);
    r', e := Do(r, n, ep, act, Reply(id), env);
    ReplyResult(Last(r).sys.lh, ep, id, env);
  }

  lemma ReplyAction(r: Run, n: nat, ep: Ep, id: Uuid, late: bool) returns (act: Action)
    requires At(r, n, ep) && id in ep.pending && (late || ep.watched)
    ensures Resolve(Last(r).sys.lh, act) == Some(Target(U, Reply(id)))
    ensures (act.Late? <==> late) && !act.See?
  {
    assert Pending(Last(r).sys, U, id);
    act := if late then Late(U, id) else Event(ep.wid, ReplyTo(id), Some(id));
    ReplyFindsItsCommand(r, |r.steps|, U, id, ep.wid);
  }

  function ReplyTo(id: Uuid): string {
    "lkoep_" + id
  }

  /** Only the overdue commands are gone. */
  ghost predicate Kept60(ep: Ep, e: Ep, now: int) {
    && (forall k :: k in e.pending <==> k in ep.pending && !Overdue(ep.pending[k], now))
    && (forall k :: k in e.pending ==> e.pending[k] == ep.pending[k])
  }

  lemma CleanIt(r: Run, n: nat, ep: Ep, now: int) returns (r': Run, e: Ep)
    requires At(r, n, ep) && n < |HEX| && now >= Last(r).now
    ensures At(r', n + 1, e) && Extends(r, Step(CleanOne(U), EnvAt(n, now, true, Unreadable)), r')
    ensures Last(r').now == now && Kept60(ep, e, now)
    ensures e.state == (if ep.state == Running && Silent(ep, now) then Down
                        else if TwoScansOld(ep, Last(r).sys.lh.gen) && ep.state != Running then Removing
                        else ep.state)
  {
    var env := EnvAt(n, now, true, Unreadable);
    r', e := Do(r, n, ep, CleanOne(U), Sweep, env);
    SweepEffect(Last(r).sys.lh, ep, env);
  }

  /** A whole scan that does not come across U. */
  lemma Scan(r: Run, n: nat, ep: Ep) returns (r': Run)
    requires At(r, n, ep) && n < |HEX|
    ensures At(r', n, ep) && Last(r').now == Last(r).now && Last(r').sys.lh.gen == Last(r).sys.lh.gen + 1
  {
    var env := EnvAt(n, Last(r).now, true, Unreadable);
    IdsDiffer(n);
    var begin, end := Step(ScanBegin, env), Step(ScanEnd, env);
    var s := Last(r);
    var s1 := Advance(s, begin, Apply(s.sys, begin).value);
    Reachable(r, |r.steps|);
    assert s1.owner == s.owner by {
      HandedIsOwned(s);
    }
    Extend(r, begin, s1);
    var s2 := Advance(s1, end, s1.sys);
    assert s2.owner == s.owner by {
      HandedIsOwned(s);
    }
    Extend(With(r, begin, s1), end, s2);
    r' := With(With(r, begin, s1), end, s2);
  }

  lemma HandedIsOwned(s: State)
    requires WatchIndex(s)
    ensures s.owner + Handed(s.sys.lh) == s.owner
  {
    forall w | w in Handed(s.sys.lh) ensures w in s.owner && s.owner[w] == Handed(s.sys.lh)[w] {
      assert w in s.sys.lh.wmap;
    }
  }

  /** Two scans that miss U, then a cleaning. */
  lemma Remove(r: Run, n: nat, ep: Ep) returns (r': Run, was: Ep, e: Ep, m: nat)
    requires At(r, n, ep) && n < |HEX| && ep.state in {Init, HasIdentity, Down}
    ensures m < |r'.steps| == m + 1 && At(r', n + 1, e) && r'.steps[m].act == CleanOne(U)
    ensures r'.states[m].sys.eps == map[U := ep] && was == ep && e.state == Removing
    ensures Kept60(ep, e, Last(r).now) && Last(r').now == Last(r).now
  {
    GenBound(r, n, ep);
    var r1 := Scan(r, n, ep);
    var r2 := Scan(r1, n, ep);
    was := ep;
    r', e := CleanIt(r2, n, ep, Last(r).now);
    m := |r2.steps|;
    assert r'.states[m] == Last(r2);
  }

  lemma GenBound(r: Run, n: nat, ep: Ep)
    requires At(r, n, ep)
    ensures ep.lsofGen <= Last(r).sys.lh.gen
    ensures ep.state != Removing ==> ep.watched
  {
    Reachable(r, |r.steps|);
    assert U in Last(r).sys.eps;
  }

  // The runs

  const NISD_REPLY := File(Object({"nisd_root_entry"}), true)
  const PMDB_REPLY := File(Object({"raft_root_entry"}), true)

  lemma FreshStays(ep: Ep, e: Ep, k: Uuid, now: int)
    requires ep.pending.Keys == {k} && ep.pending[k].start == now && Kept60(ep, e, now)
    ensures e.pending == ep.pending
  {
  }

  lemma ToAsked() returns (r: Run, e: Ep)
    ensures At(r, 2, e) && e.state == Init && e.pending.Keys == {Id(1)} && |r.steps| == 2 && Numbered(r)
    ensures e.pending[Id(1)].op == Identify && e.pending[Id(1)].start == Last(r).now
  {
    var r0, e0 := Create();
    r, e := Ask(r0, 1, e0, true);
  }

  /** The endpoint names itself; `wrote` says whether the query it is then asked gets written. */
  lemma ToIdentity(pmdb: bool, wrote: bool) returns (r: Run, e: Ep)
    ensures At(r, 3, e) && |r.steps| == 3 && r.states[2].sys.eps.Keys == {U} && r.states[2].sys.eps[U].state == Init
    ensures e.state == HasIdentity && e.app == (if pmdb then Pmdb else Nisd) && !r.steps[2].act.Late?
    ensures e.pending.Keys == {Id(2)} && Numbered(r)
    ensures !pmdb ==> e.pending[Id(2)].op == NISDInfo && e.pending[Id(2)].start == Last(r).now
    ensures pmdb ==> (e.pending[Id(2)].op == RaftInfo <==> !wrote)
  {
    var r0, e0 := ToAsked();
    GenBound(r0, 2, e0);
    var file := if pmdb then PMDB_REPLY else NISD_REPLY;
    var act;
    r, e, act := AnswerIt(r0, 2, e0, Id(1), false, wrote, file);
    assert r.states[2] == Last(r0);
  }

  lemma ToRunning() returns (r: Run, e: Ep)
    ensures At(r, 4, e) && e.state == Running && e.pending == map[] && |r.steps| == 4
    ensures Ends(r, HasIdentity, Running, false)
  {
    var r0, e0 := ToIdentity(false, true);
    GenBound(r0, 3, e0);
    var act;
    r, e, act := AnswerIt(r0, 3, e0, Id(2), false, true, NISD_REPLY);
    assert r.states[3] == Last(r0);
  }

  lemma ToDown() returns (r: Run, e: Ep)
    ensures At(r, 5, e) && e.state == Down && e.pending == map[] && e.app != Unrecognized
    ensures Ends(r, Running, Down, false)
  {
    var r0, e0 := ToRunning();
    SeenBy(r0, 4, e0);
    r, e := CleanIt(r0, 4, e0, Last(r0).now + MINUTE + 1);
    assert r.states[4] == Last(r0);
    SeenBy(r, 5, e);
  }

  lemma SeenBy(r: Run, n: nat, ep: Ep)
    requires At(r, n, ep)
    ensures ep.lastSeen <= Last(r).now
    ensures ep.state in {HasIdentity, Running, Down} ==> ep.app != Unrecognized
  {
    Reachable(r, |r.steps|);
    assert U in Last(r).sys.eps;
  }

  /** The last step of the run moves U from a to b. */
  predicate Ends(r: Run, a: Epstate, b: Epstate, late: bool) {
    && |r.states| == |r.steps| + 1 && |r.steps| > 0
    && var m := |r.steps| - 1;
       && U in r.states[m].sys.eps && r.states[m].sys.eps[U].state == a
       && U in r.states[m + 1].sys.eps && r.states[m + 1].sys.eps[U].state == b
       && (r.steps[m].act.Late? <==> late)
  }

  lemma FromInit(b: Epstate) returns (r: Run)
    requires b in {HasIdentity, Running, Removing}
    ensures Valid(r) && Ends(r, Init, b, false)
  {
    var e, was, m;
    if b == HasIdentity {
      r, e := ToIdentity(false, true);
    } else if b == Removing {
      r, e := Create();
      r, was, e, m := Remove(r, 1, e);
    } else {
      r := SeenThenAnswered();
    }
  }

  /** A query asked before the removal is answered after the endpoint is seen again. */
  lemma SeenThenAnswered() returns (r: Run)
    ensures Valid(r) && Ends(r, Init, Running, false)
  {
    var r0, e0 := RemovedWithQuery();
    var r1, e1, see := SeeAgain(r0, 4, e0);
    GenBound(r1, 5, e1);
    var e, act;
    r, e, act := AnswerIt(r1, 5, e1, Id(2), false, true, NISD_REPLY);
    assert r.states[|r1.steps|] == Last(r1);
  }

  /** In Removing, with an info query still pending. */
  lemma RemovedWithQuery() returns (r: Run, e: Ep)
    ensures At(r, 4, e) && e.state == Removing && e.pending.Keys == {Id(2)} && e.pending[Id(2)].op == NISDInfo
    ensures Ends(r, HasIdentity, Removing, false)
  {
    var r0, e0 := ToIdentity(false, true);
    var was, m;
    r, was, e, m := Remove(r0, 3, e0);
    FreshStays(e0, e, Id(2), Last(r0).now);
  }

  lemma FromDown(b: Epstate) returns (r: Run)
    requires b in {Running, Removing}
    ensures Valid(r) && Ends(r, Down, b, false)
  {
    var r0, e0 := ToDown();
    var e, was, m, act;
    if b == Removing {
      r, was, e, m := Remove(r0, 5, e0);
    } else {
      var r1, e1 := Ask(r0, 5, e0, true);
      GenBound(r1, 6, e1);
      InfoAsked(e0.app);
      r, e, act := AnswerIt(r1, 6, e1, Id(5), false, true, NISD_REPLY);
      assert r.states[|r1.steps|] == Last(r1);
    }
  }

  lemma InfoAsked(app: App)
    requires app != Unrecognized
    ensures InfoOp(DetectOp(app, false))
  {
  }

  lemma FromRemoving(b: Epstate) returns (r: Run)
    requires b in {Init, HasIdentity, Running}
    ensures Valid(r) && Ends(r, Removing, b, b != Init)
  {
    if b == Running {
      r := LateQueryAnswered();
    } else if b == HasIdentity {
      r := LateIdentityAnswered();
    } else {
      var r0, e0 := RemovedWhileAsked();
      var e, act;
      r, e, act := SeeAgain(r0, 3, e0);
      assert r.states[|r0.steps|] == Last(r0);
    }
  }

  /** In Removing, with the identify command still pending. */
  lemma RemovedWhileAsked() returns (r: Run, e: Ep)
    ensures At(r, 3, e) && e.state == Removing && e.pending.Keys == {Id(1)} && e.pending[Id(1)].op == Identify
  {
    var r0, e0 := ToAsked();
    var was, m;
    r, was, e, m := Remove(r0, 2, e0);
    FreshStays(e0, e, Id(1), Last(r0).now);
  }

  lemma LateIdentityAnswered() returns (r: Run)
    ensures Valid(r) && Ends(r, Removing, HasIdentity, true)
  {
    var r0, e0 := RemovedWhileAsked();
    var e, act;
    r, e, act := AnswerIt(r0, 3, e0, Id(1), true, true, NISD_REPLY);
    assert r.states[|r0.steps|] == Last(r0);
  }

  lemma LateQueryAnswered() returns (r: Run)
    ensures Valid(r) && Ends(r, Removing, Running, true)
  {
    var r0, e0 := RemovedWithQuery();
    var e, act;
    r, e, act := AnswerIt(r0, 4, e0, Id(2), true, true, NISD_REPLY);
    assert r.states[|r0.steps|] == Last(r0);
  }

  /** Every edge of the lifecycle is taken by some run; the two out of Removing that a late
      completion adds are taken by late completions. */
  lemma EdgeIsTaken(a: Epstate, b: Epstate, late: bool) returns (r: Run)
    requires Edge(a, b, late) && a != b && (late ==> !Edge(a, b, false))
    ensures Valid(r) && Ends(r, a, b, late)
  {
    var e;
    match a
    case Init => r := FromInit(b);
    case HasIdentity =>
      if b == Running {
        r, e := ToRunning();
      } else {
        r, e := RemovedWithQuery();
      }
    case Running => r, e := ToDown();
    case Down => r := FromDown(b);
    case Removing => r := FromRemoving(b);
  }

  /** A create event, a poll, an identify reply that names a PMDB application, and a failed write:
      the query that is now pending was overwritten in place. */
  lemma CommandIsTorn() returns (r: Run)
    ensures Valid(r) && |r.steps| == 3 && U in r.states[3].sys.eps
    ensures r.states[3].sys.eps[U].pending ==
              map[Id(2) := Cmd(NIL, U, "GET /raft_root_entry/.*/.*", RaftInfo, ZERO)]
    ensures Tears(r, 2, Id(2))
  {
    var e;
    r, e := ToIdentity(true, false);
    TornIsPending(r, 3, U, Id(2));
    TornExactly(r, 3, Id(2));
    var j: nat :| j < 3 && Tears(r, j, Id(2));
    IdsDiffer(2);
  }

  lemma TornIsPending(r: Run, i: nat, u: Uuid, id: Uuid)
    requires Valid(r) && i < |r.states| && Pending(r.states[i].sys, u, id)
    requires r.states[i].sys.eps[u].pending[id].op == RaftInfo
    ensures id in r.states[i].torn
    ensures r.states[i].sys.eps[u].pending == map[id := Cmd(NIL, u, "GET /raft_root_entry/.*/.*", RaftInfo, ZERO)]
  {
    Reachable(r, i);
    PendingCommands(r, i, u);
    assert r.states[i].sys.eps[u].pending.Keys == {id};
  }
}
