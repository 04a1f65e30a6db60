/** The monitor's mutable objects. Every method is proved to compute the function of the same
    name in EndpointSpec or System on the values its objects hold. */
module Objects {
  import opened Lookout
  import S = EndpointSpec
  import Sy = System
  import P = Passes

  class LookoutHandler {
    const ctlPath: string
    const epc: EPContainer
    var rootWd: int
    var lsofGen: nat
    var wmap: map<int, NcsiEP>

    constructor (ctlPath: string, epc: EPContainer, rootWd: int)
      ensures this.ctlPath == ctlPath && this.epc == epc && this.rootWd == rootWd
      ensures lsofGen == 0 && wmap == map[]
    {
      this.ctlPath := ctlPath;
      this.epc := epc;
      this.rootWd := rootWd;
      lsofGen := 0;
      wmap := map[];
    }

    ghost function View(): Lh
      reads this
    {
      Lh(ctlPath, rootWd, lsofGen, map w | w in wmap :: wmap[w].uuid)
    }

    /** Inside the index, an endpoint's uuid stands for the one object that carries it. */
    ghost predicate Knows(ep: NcsiEP)
      reads this
    {
      forall w :: w in wmap && wmap[w].uuid == ep.uuid ==> wmap[w] == ep
    }

    method EpWatchAdd(ep: NcsiEP, k: KernelReply) returns (r: Outcome<()>)
      requires ep.lh == this && Knows(ep)
      modifies this`wmap, ep`wid
      ensures Agrees(r, S.EpWatchAdd(old(View()), old(ep.View()), k), View(), ep.View())
      ensures ep.OnlyOwnEntry() && Knows(ep)
    {
      if rootWd == -1 { return Fatal(NotInitialised); }
      if ep.wid != -1 { return Fatal(Busy); }
      if k.KernelError? { return Halt; }
      if k.wd < 0 { return Fatal(NegativeWid); }
      if k.wd in wmap { return Fatal(AlreadyExists); }
      ep.wid := k.wd;
      wmap := wmap[k.wd := ep];
      r := Ok(());
    }

    method EpWatchRemove(ep: NcsiEP) returns (r: Outcome<()>)
      requires ep.lh == this && Knows(ep)
      modifies this`wmap, ep`wid
      ensures Agrees(r, S.EpWatchRemove(old(View()), old(ep.View())), View(), ep.View())
      ensures ep.OnlyOwnEntry() && Knows(ep)
    {
      if rootWd == -1 { return Fatal(NotInitialised); }
      if ep.wid < 0 { return Fatal(NotWatched); }
      if ep.wid !in wmap { return Fatal(NotInMap); }
      var xep := wmap[ep.wid];
      if ep != xep { return Fatal(WrongEndpoint); }
      wmap := wmap - {ep.wid};
      ep.wid := -1;
      r := Ok(());
    }

    function EpWatchLookup(wd: int): (ep: NcsiEP?)
      reads this
      ensures ep != null <==> wd in wmap
    {
      if wd in wmap then wmap[wd] else null
    }

    method ProcessEvent(wd: int, name: string, parsed: Option<Uuid>, env: Env) returns (r: Outcome<()>)
      requires epc.Linked(this)
      modifies epc`epMap, this`wmap, epc.epMap.Values
      ensures AgreesSys(r, Sy.Apply(old(epc.Abs(this)), Sy.Step(Sy.Event(wd, name, parsed), env)), epc.Abs(this))
      ensures r.Ok? ==> epc.Linked(this)
    {
      r := Ok(());
      if wd == rootWd {
        if parsed.None? { return; }
        r := AddFound(parsed.value, env);
      } else {
        Sy.EventIsReplied(epc.Abs(this), wd, name, parsed, env);
        r := ProcessReply(wd, name, parsed, env);
      }
    }

    /** The branch of `ProcessEvent` for events that do not come from the root directory. */
    method ProcessReply(wd: int, name: string, parsed: Option<Uuid>, env: Env) returns (r: Outcome<()>)
      requires epc.Linked(this)
      modifies this`wmap, epc.epMap.Values
      ensures AgreesSys(r, Sy.Replied(old(epc.Abs(this)), wd, name, parsed, env), epc.Abs(this))
      ensures r.Ok? ==> epc.Linked(this)
    {
      r := Ok(());
      var ep := EpWatchLookup(wd);
      if ep == null { return; }
      if "." <= name { return; }
      if !(LOOKOUT_PREFIX <= name) { return; }
      if parsed.None? { return; }
      r := epc.CompleteOn(this, ep, parsed.value, env);
    }

    method AddFound(u: Uuid, env: Env) returns (r: Outcome<()>)
      requires epc.Linked(this)
      modifies epc`epMap, this`wmap, epc.epMap.Values
      ensures AgreesSys(r, Sy.OnEndpoint(old(epc.Abs(this)), Sy.Target(u, Sy.Sighting), env), epc.Abs(this))
      ensures r.Ok? ==> epc.Linked(this)
      ensures forall e :: e in epc.epMap.Values ==> e in old(epc.epMap.Values) || fresh(e)
    {
      var added := epc.AddEp(this, u, env);
      r := if added.Ok? then Ok(()) else added.PropagateFailure();
    }

    /** One lsof scan: `found` are the uuids of the open files it comes across, one environment
        for each; `readable` says whether the process table could be read at all. `steps` is what
        the scan amounts to, up to a step that ends the process. */
    method LookoutLsof(readable: bool, found: seq<Uuid>, envs: seq<Env>, ghost begin: Env, ghost end: Env)
      returns (r: Outcome<()>, ghost steps: seq<Sy.Step>)
      requires epc.Linked(this) && |envs| == |found|
      modifies epc`epMap, this`wmap, this`lsofGen, epc.epMap.Values
      ensures AgreesSys(r, Sy.ApplyAll(old(epc.Abs(this)), steps), epc.Abs(this))
      ensures r.Ok? ==> epc.Linked(this)
      ensures r.Ok? ==> steps == if readable then Sy.ScanSteps(found, envs, begin, end) else []
      ensures steps <= Sy.ScanSteps(found, envs, begin, end)
    {
      r, steps := Ok(()), [];
      if !readable { return; }
      ghost var was := epc.Abs(this);
      ghost var known := epc.epMap.Values;
      lsofGen := lsofGen + 1;
      assert epc.Abs(this) == was.(lh := was.lh.(gen := was.lh.gen + 1));
      Sy.ScanPrefixZero(was, found, envs, begin);
      var i := 0;
      while i < |found| && r.Ok?
        invariant i <= |found|
        invariant AgreesSys(r, Sy.ApplyAll(was, Sy.ScanPrefix(found, envs, begin, i)), epc.Abs(this))
        invariant r.Ok? ==> epc.Linked(this)
        invariant forall e :: e in epc.epMap.Values ==> e in known || fresh(e)
      {
        Sy.ScanPrefixNext(was, found, envs, begin, i);
        r := AddFound(found[i], envs[i]);
        i := i + 1;
      }
      Sy.ScanWhole(was, found, envs, begin, end, i);
      steps := if r.Ok? then Sy.ScanSteps(found, envs, begin, end) else Sy.ScanPrefix(found, envs, begin, i);
    }

    /** One turn of the monitor loop: started from a sound state it does not fail, and every
        endpoint it leaves outside Removing has one pending command, not expired at its cleaning
        or torn by its poll. */
    method MonitorOnce(cleanEnvs: seq<Env>, pollEnvs: seq<Env>, ghost start: int)
      returns (r: Outcome<()>, ghost cs: seq<P.Visit>, ghost ps: seq<P.Visit>)
      requires epc.Linked(this) && |cleanEnvs| == |pollEnvs| == |epc.epMap|
      modifies this`wmap, epc.epMap.Values
      ensures P.Sound(old(epc.Abs(this)), start) && P.Ticking(cleanEnvs + pollEnvs, start) ==>
                r.Ok? && epc.Linked(this) && P.IterationServed(cs, ps, epc.Abs(this))
    {
      ghost var sys := epc.Abs(this);
      ghost var good := P.Sound(sys, start) && P.Ticking(cleanEnvs + pollEnvs, start);
      if good {
        P.SplitTicking(cleanEnvs, pollEnvs, start);
      }
      r, cs := epc.CleanEPs(this, cleanEnvs, start);
      ps := [];
      if !r.Ok? { return; }
      ghost var mid := epc.Abs(this);
      P.EndsAlike(cs, cleanEnvs, start);
      r, ps := epc.PollEPs(this, pollEnvs, P.EndEnvs(cleanEnvs, start));
      if good {
        P.Iterated(sys, cs, ps, start, mid, epc.Abs(this));
      }
    }
  }

  /** When one stored endpoint did what `spec` says and nothing else changed, the whole map did. */
  lemma Stored(was: Sy.Sys, u: Uuid, r: Outcome<()>, spec: Outcome<S.Pair>, ep: Ep, sys: Sy.Sys)
    requires Agrees(r, spec, sys.lh, ep) && (r.Ok? ==> sys.eps == was.eps[u := ep])
    ensures AgreesSys(r, Sy.Put(was, u, spec), sys)
  {
  }

  lemma SameBut(was: map<Uuid, Ep>, eps: map<Uuid, Ep>, u: Uuid)
    requires u in eps && eps.Keys == was.Keys + {u} && forall v :: v in was && v != u ==> eps[v] == was[v]
    ensures eps == was[u := eps[u]]
  {
  }

  ghost predicate Added(r: Outcome<bool>, spec: Outcome<Sy.Sys>, isNew: bool, sys: Sy.Sys) {
    match spec
    case Ok(s) => r == Ok(isNew) && sys == s
    case Fatal(x) => r == Fatal(x)
    case Halt => r == Halt
  }

  ghost predicate AgreesSys(r: Outcome<()>, spec: Outcome<Sy.Sys>, sys: Sy.Sys) {
    match spec
    case Ok(s) => r == Ok(()) && sys == s
    case Fatal(x) => r == Fatal(x)
    case Halt => r == Halt
  }

  /** A method's verdict and the values it leaves agree with what the specification computes;
      after a fatal verdict the process is gone and the values do not matter. */
  ghost predicate Agrees(r: Outcome<()>, spec: Outcome<S.Pair>, lh: Lh, ep: Ep) {
    match spec
    case Ok(p) => r == Ok(()) && lh == p.lh && ep == p.ep
    case Fatal(x) => r == Fatal(x)
    case Halt => r == Halt
  }

  lemma WatchDone(r: Outcome<()>, was: S.Pair, s: Epstate, k: KernelReply, lh: Lh, ep: Ep)
    requires S.IsWatchedState(s) != was.ep.watched
    requires if S.IsWatchedState(s) then Agrees(r, S.EpWatchAdd(was.lh, was.ep, k), lh, ep)
             else Agrees(r, S.EpWatchRemove(was.lh, was.ep), lh, ep)
    ensures Agrees(r, S.WatchCtl(was.lh, was.ep, s, k), lh, ep.(watched := S.IsWatchedState(s)))
  {
  }

  /** One more visit of a pass, on values. */
  lemma Stepped(sys: Sy.Sys, polling: bool, vs: seq<P.Visit>, v: P.Visit, m: Sy.Sys, r: Outcome<()>, s: Sy.Sys)
    requires Sy.ApplyAll(sys, P.PassSteps(polling, vs)) == Ok(m)
    requires AgreesSys(r, Sy.Put(m, v.u, P.VisitResult(m, polling, v)), s)
    ensures AgreesSys(r, Sy.ApplyAll(sys, P.PassSteps(polling, vs + [v])), s)
  {
    P.VisitNext(sys, polling, vs, v);
  }

  /** The same for a completion, error code included. */
  ghost predicate AgreesDone(r: Outcome<()>, err: Errno, spec: Outcome<S.Completed>, lh: Lh, ep: Ep) {
    match spec
    case Ok(c) => r == Ok(()) && lh == c.lh && ep == c.ep && err == c.err
    case Fatal(x) => r == Fatal(x)
    case Halt => r == Halt
  }

  lemma PairAgrees(r: Outcome<()>, err: Errno, was: S.Pair, id: Uuid, env: Env, lh: Lh, ep: Ep)
    requires AgreesDone(r, err, S.Complete(was.lh, was.ep, id, env), lh, ep)
    ensures Agrees(r, S.CompletePair(was.lh, was.ep, id, env), lh, ep)
  {
  }

  /** A command; the pending map of its endpoint holds a reference to it. */
  class EpCommand {
    const ep: NcsiEP
    var text: string
    var id: Uuid
    var failed: bool
    var op: CmdOp
    var start: int

    constructor (ep: NcsiEP, text: string, op: CmdOp)
      ensures this.ep == ep && this.text == text && this.op == op && id == NIL && start == ZERO && !failed
    {
      this.ep := ep;
      this.text := text;
      this.op := op;
      id := NIL;
      start := ZERO;
      failed := false;
    }

    ghost function View(): Cmd
      reads this
    {
      Cmd(id, ep.uuid, text, op, start)
    }

    /** A new command assigned to the variable that holds this one: same storage, every field
        the assignment does not name back to its zero value. */
    method Assign(text: string, op: CmdOp)
      modifies this
      ensures View() == Cmd(NIL, ep.uuid, text, op, ZERO) && !failed && this.op == op
    {
      this.text := text;
      this.op := op;
      id := NIL;
      start := ZERO;
      failed := false;
    }

    method Prep(newId: Uuid, now: int)
      modifies this, ep`pendingCmds
      ensures failed == old(failed) && op == old(op)
      ensures if newId in old(ep.pendingCmds) then ep.pendingCmds == old(ep.pendingCmds)
              else ep.pendingCmds == old(ep.pendingCmds)[newId := this] &&
                   View() == Cmd(newId, ep.uuid, old(text) + S.OutfileLine(newId), old(op), now)
    {
      id := newId;
      text := text + S.OutfileLine(newId);
      var _ := ep.AddCmd(this, now);
    }

    /** Refused, with nothing changed, while anything is pending; otherwise this very command is
        the one pending. */
    method Submit(newId: Uuid, now: int, wrote: bool)
      requires !failed
      modifies this, ep`pendingCmds
      ensures S.Submit(old(ep.View()), old(text), old(op), newId, now, wrote) == S.Submitted(ep.View(), failed)
      ensures op == old(op)
      ensures old(ep.pendingCmds) == map[] ==> ep.pendingCmds == map[newId := this]
      ensures old(ep.pendingCmds) != map[] ==> ep.pendingCmds == old(ep.pendingCmds) && !failed
    {
      ghost var was := ep.View();
      if !ep.MayQueueCmd() {
        assert |was.pending| != 0;
        return;
      }
      assert was.pending == map[];
      Prep(newId, now);
      failed := !wrote;
      assert ep.PendingView() == map[newId := View()];
    }
  }

  class NcsiEP {
    const uuid: Uuid
    const lh: LookoutHandler
    var app: App
    var state: Epstate
    var lastSeen: int
    var pendingCmds: map<Uuid, EpCommand>
    var lsofGen: nat
    var watched: bool
    var wid: int

    constructor (uuid: Uuid, lh: LookoutHandler)
      ensures this.uuid == uuid && this.lh == lh && View() == S.NewEp(lh.View(), uuid)
    {
      this.uuid := uuid;
      this.lh := lh;
      app := Unrecognized;
      state := Unknown;
      lastSeen := 0;
      pendingCmds := map[];
      lsofGen := lh.lsofGen;
      watched := false;
      wid := -1;
    }

    ghost function PendingView(): map<Uuid, Cmd>
      reads this`pendingCmds, pendingCmds.Values
    {
      map k | k in pendingCmds :: pendingCmds[k].View()
    }

    ghost function View(): Ep
      reads this, pendingCmds.Values
    {
      Ep(uuid, app, state, lastSeen, PendingView(), lsofGen, watched, wid)
    }

    /** The handler's index changed in entries for this object only. */
    twostate predicate OnlyOwnEntry()
      reads this, lh
    {
      forall w :: w in lh.wmap ==> lh.wmap[w] == this || (w in old(lh.wmap) && lh.wmap[w] == old(lh.wmap[w]))
    }

    method WatchCtl(newState: Epstate, k: KernelReply) returns (r: Outcome<()>)
      requires lh.Knows(this)
      modifies lh`wmap, this`wid, this`watched
      ensures Agrees(r, S.WatchCtl(old(lh.View()), old(View()), newState, k), lh.View(), View())
      ensures OnlyOwnEntry() && lh.Knows(this)
    {
      var iws := S.IsWatchedState(newState);
      if iws == watched { return Ok(()); }
      ghost var was := S.Pair(lh.View(), View());
      if iws {
        r := lh.EpWatchAdd(this, k);
      } else {
        r := lh.EpWatchRemove(this);
      }
      ghost var mid := View();
      if r.Ok? {
        watched := iws;
        assert View() == mid.(watched := iws);
      }
      WatchDone(r, was, newState, k, lh.View(), mid);
    }

    method ChangeState(s: Epstate, env: Env) returns (r: Outcome<()>)
      requires lh.Knows(this)
      modifies lh`wmap, this`wid, this`watched, this`state, this`lastSeen
      ensures Agrees(r, S.ChangeState(old(lh.View()), old(View()), s, env), lh.View(), View())
      ensures OnlyOwnEntry() && lh.Knows(this)
    {
      if s == Any { return Fatal(NotSettable); }
      r := Ok(());
      if s != state {
        if watched != S.IsWatchedState(state) { return Fatal(InvalidWatch); }
        r := WatchCtl(s, env.kernel);
        if !r.Ok? { return; }
        EnterState(s, env.now);
      }
    }

    method EnterState(s: Epstate, now: int)
      modifies this`state, this`lastSeen
      ensures View() == old(View()).(state := s,
                                     lastSeen := if s in {Init, Running, HasIdentity} then now else old(lastSeen))
    {
      state := s;
      match s
      case Init | Running | HasIdentity => lastSeen := now;
      case _ =>
    }

    method LsofGenUpdate(gen: nat) returns (r: Outcome<()>)
      modifies this`lsofGen
      ensures match S.LsofGenUpdate(old(View()), gen)
              case Ok(e) => r == Ok(()) && View() == e
              case Fatal(x) => r == Fatal(x)
              case Halt => r == Halt
    {
      if lsofGen > gen { return Fatal(GenAhead); }
      if lsofGen == gen { return Ok(()); }
      lsofGen := gen;
      r := Ok(());
    }

    predicate MayQueueCmd(): (ok: bool)
      reads this
      ensures ok <==> pendingCmds == map[]
    {
      |pendingCmds| == 0
    }

    method AddCmd(c: EpCommand, now: int) returns (exists_: bool)
      modifies c`start, this`pendingCmds
      ensures exists_ == (c.id in old(pendingCmds))
      ensures pendingCmds == if exists_ then old(pendingCmds) else old(pendingCmds)[c.id := c]
      ensures c.start == if exists_ then old(c.start) else now
    {
      exists_ := c.id in pendingCmds;
      if !exists_ {
        c.start := now;
        pendingCmds := pendingCmds[c.id := c];
      }
    }

    /** The command under this id, if there is one; it leaves the map when forced or stale. */
    method RemoveCmd(id: Uuid, force: bool, now: int) returns (c: EpCommand?)
      modifies this`pendingCmds
      ensures c == if id in old(pendingCmds) then old(pendingCmds)[id] else null
      ensures pendingCmds == if c != null && (force || S.CmdIsStale(c.View(), now)) then old(pendingCmds) - {id}
                             else old(pendingCmds)
    {
      if id !in pendingCmds { return null; }
      c := pendingCmds[id];
      if force || now - c.start > TIMEOUT {
        pendingCmds := pendingCmds - {id};
      }
    }

    method FlushStaleCmds(now: int)
      modifies this`pendingCmds
      ensures View() == S.FlushStaleCmds(old(View()), now)
    {
      ghost var was := pendingCmds;
      var todo := pendingCmds.Keys;
      while todo != {}
        invariant todo <= pendingCmds.Keys <= was.Keys
        invariant forall id :: id in pendingCmds ==> pendingCmds[id] == was[id]
        invariant forall id :: id in was ==>
                    (id in pendingCmds <==> id in todo || !(now - was[id].start > TIMEOUT))
        decreases todo
      {
        var x :| x in todo;
        var _ := RemoveCmd(x, false, now);
        todo := todo - {x};
      }
      assert PendingView() == S.FlushStaleCmds(old(View()), now).pending;
    }

    /** The retry is assigned to the variable that the pending map already refers to. */
    method QueryApp(env: Env) returns (failed: bool)
      modifies this`pendingCmds
      ensures S.QueryApp(old(View()), env) == S.Submitted(View(), failed)
    {
      ghost var was := View();
      var cmd := new EpCommand(this, S.DetectText(app, false), S.DetectOp(app, false));
      assert View() == was;
      cmd.Submit(env.id1, env.now, env.wrote1);
      ghost var first := View();
      if cmd.failed && cmd.op == SystemInfo {
        cmd.Assign(S.DetectText(app, true), S.DetectOp(app, true));
        assert PendingView() == first.pending[env.id1 := S.Overwritten(was)];
        cmd.Submit(env.id2, env.now, env.wrote2);
        return cmd.failed;
      }
      failed := false;
    }

    method Update(env: Env) returns (r: Outcome<()>)
      requires lh.Knows(this)
      modifies lh`wmap, this`wid, this`watched, this`state, this`lastSeen
      ensures Agrees(r, S.Update(old(lh.View()), old(View()), env), lh.View(), View())
      ensures OnlyOwnEntry() && lh.Knows(this)
    {
      lastSeen := env.now;
      r := Ok(());
      if state != Running {
        r := ChangeState(Running, env);
      }
    }

    method CompleteIdentify(doc: Json, env: Env) returns (r: Outcome<()>)
      requires lh.Knows(this)
      modifies lh`wmap, this
      ensures Agrees(r, S.CompleteIdentify(old(lh.View()), old(View()), doc, env), lh.View(), View())
      ensures OnlyOwnEntry() && lh.Knows(this)
    {
      var determined := S.DetermineApp(doc);
      app := if determined.Some? then determined.value else Unrecognized;
      if determined.None? { return Ok(()); }
      r := ChangeState(HasIdentity, env);
      if r.Ok? {
        var _ := QueryApp(env);
      }
    }

    method Complete(id: Uuid, env: Env) returns (r: Outcome<()>, err: Errno)
      requires lh.Knows(this)
      modifies lh`wmap, this
      ensures AgreesDone(r, err, S.Complete(old(lh.View()), old(View()), id, env), lh.View(), View())
      ensures OnlyOwnEntry() && lh.Knows(this)
    {
      r, err := Ok(()), NoError;
      var c := RemoveCmd(id, true, env.now);
      if c == null { return r, NoEntry; }
      assert PendingView() == old(PendingView()) - {id};
      match if c.id == id then env.out else env.nilOut
      case Unreadable => err := LoadError;
      case File(doc, typed) => r, err := Answer(c.op, doc, typed, env);
    }

    /** The rest of `Complete`, once the reply has been read. */
    method Answer(op: CmdOp, doc: Json, typed: bool, env: Env) returns (r: Outcome<()>, err: Errno)
      requires lh.Knows(this)
      modifies lh`wmap, this
      ensures AgreesDone(r, err, S.Answer(old(lh.View()), old(View()), op, doc, typed, env), lh.View(), View())
      ensures OnlyOwnEntry() && lh.Knows(this)
    {
      r, err := Ok(()), NoError;
      if state == Down {
        r := ChangeState(Running, env);
        if !r.Ok? { return; }
      }
      match op
      case SystemInfo | NISDInfo | NCLIENTInfo =>
        if !typed { return r, ParseError; }
        r := Update(env);
      case Custom => r := Fatal(NilOutput);
      case Identify => r := CompleteIdentify(doc, env);
      case RaftInfo =>
    }

    method Poll(env: Env) returns (r: Outcome<()>)
      requires lh.Knows(this)
      modifies lh`wmap, this
      ensures Agrees(r, S.Poll(old(lh.View()), old(View()), env), lh.View(), View())
      ensures OnlyOwnEntry() && lh.Knows(this)
    {
      r := Ok(());
      match state
      case Init =>
        var c := new EpCommand(this, "GET /.*", Identify);
        assert View() == old(View());
        c.Submit(env.id1, env.now, env.wrote1);
      case HasIdentity =>
        var _ := QueryApp(env);
      case Running =>
        var _ := QueryApp(env);
        if env.now - lastSeen > TIMEOUT {
          if state == Running {
            r := ChangeState(Down, env);
          }
        }
      case Down =>
        if env.now - lastSeen > TIMEOUT {
          var _ := QueryApp(env);
        }
      case _ =>
    }

    /** The body of the loop in `CleanEPs`. */
    method Clean(env: Env) returns (r: Outcome<()>)
      requires lh.Knows(this)
      modifies lh`wmap, this
      ensures Agrees(r, S.Clean(old(lh.View()), old(View()), env), lh.View(), View())
      ensures OnlyOwnEntry() && lh.Knows(this)
    {
      r := Ok(());
      FlushStaleCmds(env.now);
      if state == Running && env.now - lastSeen > TIMEOUT {
        r := ChangeState(Down, env);
      } else if lsofGen + 1 < lh.lsofGen {
        if state != Running {
          r := ChangeState(Removing, env);
        }
      }
    }

    /** The branch of `AddEp` for an endpoint already in the map. */
    method Sight(env: Env) returns (r: Outcome<()>)
      requires lh.Knows(this)
      modifies lh`wmap, this
      ensures Agrees(r, S.Sight(old(lh.View()), old(View()), env), lh.View(), View())
      ensures OnlyOwnEntry() && lh.Knows(this)
    {
      r := LsofGenUpdate(lh.lsofGen);
      if !r.Ok? { return; }
      var newState := state;
      match state {
        case Removing => newState := Init;
        case Unknown => newState := Init;
        case _ =>
      }
      if newState != state {
        r := ChangeState(newState, env);
      }
    }
  }

  class EPContainer {
    var epMap: map<Uuid, NcsiEP>

    constructor ()
      ensures epMap == map[]
    {
      epMap := map[];
    }

    /** Every object sits under its own uuid, and the index points at stored objects only. */
    ghost predicate Linked(lh: LookoutHandler)
      reads this, lh
    {
      && lh.epc == this
      && (forall u :: u in epMap ==> epMap[u].uuid == u && epMap[u].lh == lh)
      && (forall w :: w in lh.wmap ==> lh.wmap[w].uuid in epMap && epMap[lh.wmap[w].uuid] == lh.wmap[w])
    }

    /** The commands pending on stored endpoints. */
    ghost function Cmds(): set<EpCommand>
      reads this, epMap.Values
    {
      set u, k | u in epMap && k in epMap[u].pendingCmds :: epMap[u].pendingCmds[k]
    }

    ghost function Eps(): map<Uuid, Ep>
      reads this, epMap.Values, Cmds()
    {
      map u | u in epMap :: epMap[u].View()
    }

    ghost function Abs(lh: LookoutHandler): Sy.Sys
      reads this, lh, epMap.Values, Cmds()
    {
      Sy.Sys(lh.View(), Eps())
    }

    function Lookup(node: Uuid): (ep: NcsiEP?)
      reads this
      ensures ep != null <==> node in epMap
    {
      if node in epMap then epMap[node] else null
    }

    method AddEp(lh: LookoutHandler, u: Uuid, env: Env) returns (r: Outcome<bool>)
      requires Linked(lh)
      modifies this`epMap, lh`wmap, epMap.Values
      ensures Added(r, Sy.OnEndpoint(old(Abs(lh)), Sy.Target(u, Sy.Sighting), env), u !in old(epMap), Abs(lh))
      ensures r.Ok? ==> Linked(lh)
      ensures forall e :: e in epMap.Values ==> e in old(epMap.Values) || fresh(e)
    {
      if u in epMap {
        r := AddKnown(lh, u, env);
      } else {
        ghost var ep;
        r, ep := AddNew(lh, u, env);
      }
    }

    method AddKnown(lh: LookoutHandler, u: Uuid, env: Env) returns (r: Outcome<bool>)
      requires Linked(lh) && u in epMap
      modifies lh`wmap, epMap[u]
      ensures Added(r, Sy.Put(old(Abs(lh)), u, S.Sight(old(lh.View()), old(epMap[u].View()), env)), false, Abs(lh))
      ensures r.Ok? ==> Linked(lh)
    {
      ghost var was := Abs(lh);
      ghost var spec := S.Sight(lh.View(), epMap[u].View(), env);
      var v := epMap[u].Sight(env);
      assert Eps() == was.eps[u := epMap[u].View()];
      Stored(was, u, v, spec, epMap[u].View(), Abs(lh));
      r := if v.Ok? then Ok(false) else v.PropagateFailure();
    }

    /** A new endpoint, already moved to Init, but not yet in the map. */
    method MakeEp(lh: LookoutHandler, u: Uuid, env: Env) returns (ep: NcsiEP, r: Outcome<()>)
      requires forall w :: w in lh.wmap ==> lh.wmap[w].uuid != u
      modifies lh`wmap
      ensures fresh(ep) && ep.uuid == u && ep.lh == lh
      ensures Agrees(r, S.ChangeState(old(lh.View()), S.NewEp(old(lh.View()), u), Init, env), lh.View(), ep.View())
      ensures forall w :: w in lh.wmap ==> lh.wmap[w] == ep || (w in old(lh.wmap) && lh.wmap[w] == old(lh.wmap[w]))
    {
      ep := new NcsiEP(u, lh);
      r := ep.ChangeState(Init, env);
    }

    method AddNew(lh: LookoutHandler, u: Uuid, env: Env) returns (r: Outcome<bool>, ghost ep: NcsiEP)
      requires Linked(lh) && u !in epMap
      modifies this`epMap, lh`wmap
      ensures Added(r, Sy.Put(old(Abs(lh)), u,
                              S.ChangeState(old(lh.View()), S.NewEp(old(lh.View()), u), Init, env)), true, Abs(lh))
      ensures r.Ok? ==> Linked(lh)
      ensures fresh(ep) && epMap == if r.Ok? then old(epMap)[u := ep] else old(epMap)
    {
      ghost var was := Abs(lh);
      ghost var spec := S.ChangeState(was.lh, S.NewEp(was.lh, u), Init, env);
      ghost var others := Eps();
      var made, v := MakeEp(lh, u, env);
      assert Eps() == others;
      ep := made;
      if v.Ok? {
        Insert(lh, made);
      }
      Stored(was, u, v, spec, made.View(), Abs(lh));
      r := if v.Ok? then Ok(true) else v.PropagateFailure();
    }

    method Insert(lh: LookoutHandler, ep: NcsiEP)
      requires ep.uuid !in epMap
      modifies this`epMap
      ensures epMap == old(epMap)[ep.uuid := ep]
      ensures Eps() == old(Eps())[ep.uuid := ep.View()]
    {
      epMap := epMap[ep.uuid := ep];
    }

    /** A completion on an endpoint found earlier. */
    method CompleteOn(lh: LookoutHandler, ep: NcsiEP, id: Uuid, env: Env) returns (r: Outcome<()>)
      requires Linked(lh) && ep.uuid in epMap && epMap[ep.uuid] == ep
      modifies lh`wmap, ep
      ensures AgreesSys(r, Sy.Put(old(Abs(lh)), ep.uuid,
                                  S.CompletePair(old(lh.View()), old(ep.View()), id, env)), Abs(lh))
      ensures r.Ok? ==> Linked(lh)
    {
      ghost var was := Abs(lh);
      ghost var spec := S.CompletePair(lh.View(), ep.View(), id, env);
      ghost var before, others := S.Pair(lh.View(), ep.View()), Eps();
      var err;
      r, err := ep.Complete(id, env);
      PairAgrees(r, err, before, id, env, lh.View(), ep.View());
      forall u | u in epMap && u != ep.uuid ensures epMap[u].View() == others[u] {
      }
      SameBut(others, Eps(), ep.uuid);
      Stored(was, ep.uuid, r, spec, ep.View(), Abs(lh));
    }

    method Process(lh: LookoutHandler, epUuid: Uuid, cmdUuid: Uuid, env: Env) returns (r: Outcome<()>)
      requires Linked(lh)
      modifies lh`wmap, epMap.Values
      ensures AgreesSys(r, if epUuid in old(epMap) then Sy.Apply(old(Abs(lh)), Sy.Step(Sy.Late(epUuid, cmdUuid), env))
                           else Ok(old(Abs(lh))), Abs(lh))
      ensures r.Ok? ==> Linked(lh)
    {
      var ep := Lookup(epUuid);
      r := Ok(());
      if ep != null {
        r := CompleteOn(lh, ep, cmdUuid, env);
      }
    }

    /** The loop body of `CleanEPs`, seen from the whole map. */
    method CleanOne(lh: LookoutHandler, u: Uuid, env: Env) returns (r: Outcome<()>)
      requires Linked(lh) && u in epMap
      modifies lh`wmap, epMap[u]
      ensures AgreesSys(r, Sy.Put(old(Abs(lh)), u, P.VisitResult(old(Abs(lh)), false, P.Visit(u, env))), Abs(lh))
      ensures r.Ok? ==> Linked(lh)
    {
      ghost var was := Abs(lh);
      ghost var spec := P.VisitResult(was, false, P.Visit(u, env));
      r := epMap[u].Clean(env);
      assert Eps() == was.eps[u := epMap[u].View()];
      Stored(was, u, r, spec, epMap[u].View(), Abs(lh));
    }

    /** The loop body of `PollEPs`, seen from the whole map. */
    method PollOne(lh: LookoutHandler, u: Uuid, env: Env) returns (r: Outcome<()>)
      requires Linked(lh) && u in epMap
      modifies lh`wmap, epMap[u]
      ensures AgreesSys(r, Sy.Put(old(Abs(lh)), u, P.VisitResult(old(Abs(lh)), true, P.Visit(u, env))), Abs(lh))
      ensures r.Ok? ==> Linked(lh)
    {
      ghost var was := Abs(lh);
      ghost var spec := P.VisitResult(was, true, P.Visit(u, env));
      r := epMap[u].Poll(env);
      assert Eps() == was.eps[u := epMap[u].View()];
      Stored(was, u, r, spec, epMap[u].View(), Abs(lh));
    }

    /** `envs` are the clock readings (and fresh ids) of the successive iterations; the order in
        which the map is walked is arbitrary, and `vs` tells which it was. */
    method CleanEPs(lh: LookoutHandler, envs: seq<Env>, ghost start: int)
      returns (r: Outcome<()>, ghost vs: seq<P.Visit>)
      requires Linked(lh) && |envs| == |epMap|
      modifies lh`wmap, epMap.Values
      ensures AgreesSys(r, Sy.ApplyAll(old(Abs(lh)), P.PassSteps(false, vs)), Abs(lh))
      ensures r.Ok? ==> Linked(lh) && P.Walked(vs, epMap.Keys, {}, envs)
      ensures P.Sound(old(Abs(lh)), start) && P.Ticking(envs, start) ==>
                r.Ok? && P.WalkServes(old(Abs(lh)), vs, false, start, Abs(lh))
    {
      r, vs := Ok(()), [];
      ghost var sys := Abs(lh);
      var todo, i := epMap.Keys, 0;
      P.NoneVisited(epMap.Keys, envs);
      while todo != {} && r.Ok?
        invariant i == |vs| && P.Walked(vs, epMap.Keys, todo, envs)
        invariant AgreesSys(r, Sy.ApplyAll(sys, P.PassSteps(false, vs)), Abs(lh))
        invariant r.Ok? ==> Linked(lh)
        decreases todo
      {
        var u :| u in todo;
        P.WalkedNext(vs, epMap.Keys, todo, envs, u);
        ghost var m := Abs(lh);
        r := CleanOne(lh, u, envs[i]);
        Stepped(sys, false, vs, P.Visit(u, envs[i]), m, r, Abs(lh));
        vs := vs + [P.Visit(u, envs[i])];
        todo, i := todo - {u}, i + 1;
      }
      if P.Sound(sys, start) && P.Ticking(envs, start) {
        ghost var s := P.WalkSound(sys, vs, false, todo, envs, start);
      }
    }

    method PollEPs(lh: LookoutHandler, envs: seq<Env>, ghost start: int)
      returns (r: Outcome<()>, ghost vs: seq<P.Visit>)
      requires Linked(lh) && |envs| == |epMap|
      modifies lh`wmap, epMap.Values
      ensures AgreesSys(r, Sy.ApplyAll(old(Abs(lh)), P.PassSteps(true, vs)), Abs(lh))
      ensures r.Ok? ==> Linked(lh) && P.Walked(vs, epMap.Keys, {}, envs)
      ensures P.Sound(old(Abs(lh)), start) && P.Ticking(envs, start) ==>
                r.Ok? && P.WalkServes(old(Abs(lh)), vs, true, start, Abs(lh))
    {
      r, vs := Ok(()), [];
      ghost var sys := Abs(lh);
      var todo, i := epMap.Keys, 0;
      P.NoneVisited(epMap.Keys, envs);
      while todo != {} && r.Ok?
        invariant i == |vs| && P.Walked(vs, epMap.Keys, todo, envs)
        invariant AgreesSys(r, Sy.ApplyAll(sys, P.PassSteps(true, vs)), Abs(lh))
        invariant r.Ok? ==> Linked(lh)
        decreases todo
      {
        var u :| u in todo;
        P.WalkedNext(vs, epMap.Keys, todo, envs, u);
        ghost var m := Abs(lh);
        r := PollOne(lh, u, envs[i]);
        Stepped(sys, true, vs, P.Visit(u, envs[i]), m, r, Abs(lh));
        vs := vs + [P.Visit(u, envs[i])];
        todo, i := todo - {u}, i + 1;
      }
      if P.Sound(sys, start) && P.Ticking(envs, start) {
        ghost var s := P.WalkSound(sys, vs, true, todo, envs, start);
      }
    }
  }
}
