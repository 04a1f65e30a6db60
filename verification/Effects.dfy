/** What one step does to the commands, the scan generation and the last-seen time of the
    endpoint it concerns, and that command ids are conserved. */
module Effects {
  import opened Lookout
  import opened EndpointSpec
  import opened EndpointLemmas
  import opened System

  /** Ids leave `pending` only by being consumed or expiring; the only id that can enter is the
      step's first fresh one, issued now, or torn if the write of a PMDB query failed. Other
      commands are kept as they were. */
  predicate CommandEffect(sys: Sys, t: Target, env: Env, p: Pair) {
    var ep := Before(sys, t.u);
    && ep.pending.Keys - Consumed(sys, t) - Expired(sys, t, env.now) == p.ep.pending.Keys - {env.id1}
    && (forall k :: k in p.ep.pending ==>
          if k == env.id1 then
            && (p.ep.pending[k].op == RaftInfo <==> AsksPmdb(ep, t.op, env) && !env.wrote1)
            && p.ep.pending[k].start == (if p.ep.pending[k].op == RaftInfo then ZERO else env.now)
          else k in ep.pending && p.ep.pending[k] == ep.pending[k])
    && (AsksPmdb(ep, t.op, env) ==> env.id1 in p.ep.pending)
    && (t.op.Sweep? ==> forall k :: k in p.ep.pending ==> !Overdue(p.ep.pending[k], env.now))
    && (t.op.Probe? ==> |p.ep.pending| == 1 || ep.state == Removing)
  }

  /** A completion that decodes an info reply. */
  predicate Updates(sys: Sys, t: Target, env: Env) {
    && t.op.Reply?
    && t.op.id in Before(sys, t.u).pending
    && var c := Before(sys, t.u).pending[t.op.id];
       InfoOp(c.op) && Answers(c, ReplyFile(c, t.op.id, env))
  }

  /** Stamps and clocks: only a sighting moves the generation, and to the current one; the
      last-seen time never moves back, is set on every update and on every entry to Running;
      Running is left for Down only when stale; Removing is entered only when the generation is
      at least two scans old, and left only by a sighting or a completion. */
  predicate ClockEffect(sys: Sys, t: Target, env: Env, p: Pair) {
    var ep := Before(sys, t.u);
    && p.ep.lsofGen == (if t.op.Sighting? then sys.lh.gen else ep.lsofGen)
    && (ep.state != Unknown ==> p.ep.lastSeen >= ep.lastSeen)
    && (Updates(sys, t, env) || (ep.state != Running && p.ep.state == Running) ==> p.ep.lastSeen == env.now)
    && (ep.state == Running && p.ep.state == Down ==> Silent(ep, env.now))
    && (ep.state != Removing && p.ep.state == Removing ==> t.op.Sweep? && TwoScansOld(ep, sys.lh.gen))
    && (ep.state == Removing && p.ep.state != Removing ==> t.op.Sighting? || t.op.Reply?)
  }

  lemma SweepEffect(lh: Lh, ep: Ep, env: Env)
    requires Local(lh, ep, env.now) && KernelFits(lh, ep, env.kernel)
    ensures Clean(lh, ep, env).Ok?
    ensures var e := Clean(lh, ep, env).value.ep;
            && (forall k :: k in e.pending <==> k in ep.pending && !Overdue(ep.pending[k], env.now))
            && (forall k :: k in e.pending ==> e.pending[k] == ep.pending[k])
            && e.uuid == ep.uuid && e.app == ep.app && e.lsofGen == ep.lsofGen && e.lastSeen == ep.lastSeen
            && e.state == (if ep.state == Running && Silent(ep, env.now) then Down
                           else if TwoScansOld(ep, lh.gen) && ep.state != Running then Removing
                           else ep.state)
  {
    var ep1 := FlushStaleCmds(ep, env.now);
    ChangeStateKeeps(lh, ep1, Down, env);
    ChangeStateKeeps(lh, ep1, Removing, env);
  }

  lemma ProbeEffect(lh: Lh, ep: Ep, env: Env)
    requires Local(lh, ep, env.now) && KernelFits(lh, ep, env.kernel)
    ensures Poll(lh, ep, env).Ok?
    ensures var e := Poll(lh, ep, env).value.ep;
            && e.uuid == ep.uuid && e.app == ep.app && e.lsofGen == ep.lsofGen && e.lastSeen == ep.lastSeen
            && (ep.state == Removing ==> e == ep)
            && (ep.state == Init && ep.pending == map[] ==>
                  e.pending == Issued(ep, Identify, env.id1, env.now))
            && (ep.state in {HasIdentity, Running, Down} && ep.pending == map[] ==>
                  Asked(ep.uuid, ep.app, env, e.pending))
            && (ep.pending != map[] ==> e.pending == ep.pending)
            && e.state == (if ep.state == Running && Silent(ep, env.now) then Down else ep.state)
  {
    match ep.state
    case Init => SubmitKeeps(ep, "GET /.*", Identify, env.id1, env.now, env.wrote1);
    case HasIdentity => QueryAppKeeps(ep, env);
    case Running =>
      PollRunningKeeps(lh, ep, env);
      QueryAppKeeps(ep, env);
    case Down => QueryAppKeeps(ep, env);
    case Removing =>
  }

  lemma OnePending(m: map<Uuid, Cmd>)
    requires AtMostOne(m)
    ensures |m| <= 1
    ensures m != map[] ==> |m| == 1
  {
    if m != map[] {
      var k :| k in m;
      assert m.Keys == {k};
      assert |m.Keys| == 1;
    }
  }

  lemma SweepCommands(sys: Sys, t: Target, env: Env)
    requires t.op.Sweep? && t.u in sys.eps && env.id1 !in sys.eps[t.u].pending
    requires Local(sys.lh, sys.eps[t.u], env.now) && KernelFits(sys.lh, sys.eps[t.u], env.kernel)
    ensures EpStep(sys, t, env).Ok?
    ensures CommandEffect(sys, t, env, EpStep(sys, t, env).value)
    ensures ClockEffect(sys, t, env, EpStep(sys, t, env).value)
  {
    SweepEffect(sys.lh, sys.eps[t.u], env);
  }

  lemma ProbeCommands(sys: Sys, t: Target, env: Env)
    requires t.op.Probe? && t.u in sys.eps && env.id1 !in sys.eps[t.u].pending
    requires Local(sys.lh, sys.eps[t.u], env.now) && KernelFits(sys.lh, sys.eps[t.u], env.kernel)
    ensures EpStep(sys, t, env).Ok?
    ensures CommandEffect(sys, t, env, EpStep(sys, t, env).value)
    ensures ClockEffect(sys, t, env, EpStep(sys, t, env).value)
  {
    var ep := sys.eps[t.u];
    ProbeEffect(sys.lh, ep, env);
    var e := Poll(sys.lh, ep, env).value.ep;
    if ep.state != Removing {
      assert AtMostOne(e.pending);
      OnePending(e.pending);
    }
  }

  lemma ReplyCommands(sys: Sys, t: Target, env: Env)
    requires t.op.Reply? && t.u in sys.eps && env.id1 !in sys.eps[t.u].pending
    requires Local(sys.lh, sys.eps[t.u], env.now) && KernelFits(sys.lh, sys.eps[t.u], env.kernel)
    ensures EpStep(sys, t, env).Ok? ==>
              && CommandEffect(sys, t, env, EpStep(sys, t, env).value)
              && ClockEffect(sys, t, env, EpStep(sys, t, env).value)
  {
    var ep := sys.eps[t.u];
    CompleteKeeps(sys.lh, ep, t.op.id, env);
    var c := Complete(sys.lh, ep, t.op.id, env);
    if c.Ok? {
      ReplyCommandEffect(sys, t, env, c.value);
    }
  }

  lemma ReplyCommandEffect(sys: Sys, t: Target, env: Env, c: Completed)
    requires t.op.Reply? && t.u in sys.eps && env.id1 !in sys.eps[t.u].pending
    requires AtMostOne(sys.eps[t.u].pending) && CompletionEffect(sys.lh, sys.eps[t.u], t.op.id, env, c)
    ensures CommandEffect(sys, t, env, Pair(c.lh, c.ep)) && ClockEffect(sys, t, env, Pair(c.lh, c.ep))
  {
    if t.op.id in sys.eps[t.u].pending {
      OnlyPending(sys.eps[t.u], t.op.id);
      assert sys.eps[t.u].pending.Keys == {t.op.id};
    }
  }

  lemma SightingCommands(sys: Sys, t: Target, env: Env)
    requires t.op.Sighting? && sys.lh.rootWd >= 0 && -1 !in sys.lh.wmap
    requires env.id1 !in Before(sys, t.u).pending && KernelFits(sys.lh, Before(sys, t.u), env.kernel)
    requires t.u in sys.eps ==> Local(sys.lh, sys.eps[t.u], env.now)
    ensures EpStep(sys, t, env).Ok? ==>
              && CommandEffect(sys, t, env, EpStep(sys, t, env).value)
              && ClockEffect(sys, t, env, EpStep(sys, t, env).value)
  {
    var ep := Before(sys, t.u);
    ChangeStateKeeps(sys.lh, ep.(lsofGen := sys.lh.gen), Init, env);
  }

  lemma TargetEffect(s: State, st: Step, t: Target)
    requires Inv(s) && Guard(s, st) && Resolve(s.sys.lh, st.act) == Some(t)
    ensures EpStep(s.sys, t, st.env).Ok? ==>
              && CommandEffect(s.sys, t, st.env, EpStep(s.sys, t, st.env).value)
              && ClockEffect(s.sys, t, st.env, EpStep(s.sys, t, st.env).value)
  {
    TargetKept(s, st, t);
    assert !Pending(s.sys, t.u, st.env.id1);
    match t.op
    case Sighting => SightingCommands(s.sys, t, st.env);
    case Reply(_) => ReplyCommands(s.sys, t, st.env);
    case Sweep => SweepCommands(s.sys, t, st.env);
    case Probe => ProbeCommands(s.sys, t, st.env);
  }

  /** What a step does to the stamps and clocks of the endpoint it concerns. */
  lemma ClockNext(s: State, st: Step, s': State, t: Target)
    requires Inv(s) && Next(s, st, s') && Resolve(s.sys.lh, st.act) == Some(t)
    ensures t.u in s'.sys.eps
    ensures ClockEffect(s.sys, t, st.env, Pair(s'.sys.lh, s'.sys.eps[t.u]))
  {
    TargetEffect(s, st, t);
  }

  /** What a step does to the commands of the endpoint it concerns. */
  lemma CommandNext(s: State, st: Step, s': State, t: Target)
    requires Inv(s) && Next(s, st, s') && Resolve(s.sys.lh, st.act) == Some(t)
    ensures t.u in s'.sys.eps
    ensures CommandEffect(s.sys, t, st.env, Pair(s'.sys.lh, s'.sys.eps[t.u]))
  {
    TargetEffect(s, st, t);
  }

  /** Nothing but the target changes. */
  lemma Framed(s: State, st: Step, s': State, v: Uuid)
    requires Inv(s) && Next(s, st, s')
    requires var t := Resolve(s.sys.lh, st.act); t.None? || t.value.u != v
    ensures v in s'.sys.eps <==> v in s.sys.eps
    ensures v in s.sys.eps ==> s'.sys.eps[v] == s.sys.eps[v]
  {
  }

  /** The bookkeeping part of conservation: what one step does to the three places. */
  predicate Moved(was: set<Uuid>, left: set<Uuid>, id1: Uuid, used: set<Uuid>, dropped: set<Uuid>) {
    was - used - dropped == left - {id1} && used <= was && dropped <= was && used !! dropped && id1 !in was
  }

  /** s' is s with only u's pending ids changed, as Moved says. */
  ghost predicate MovedAt(s: State, s': State, u: Uuid, id1: Uuid, used: set<Uuid>, dropped: set<Uuid>) {
    && id1 !in s.issued
    && Moved(PendingIds(s.sys, u), PendingIds(s'.sys, u), id1, used, dropped)
    && u in s'.sys.eps && s'.sys.eps == s.sys.eps[u := s'.sys.eps[u]]
    && s'.issued == s.issued + PendingIds(s'.sys, u)
    && s'.consumed == s.consumed + used && s'.expired == s.expired + dropped
  }

  /** Where an id that is pending after the step was before it. */
  lemma PendingCameFrom(s: State, s': State, u: Uuid, id1: Uuid, used: set<Uuid>, dropped: set<Uuid>, v: Uuid, id: Uuid)
    requires Conserved(s) && MovedAt(s, s', u, id1, used, dropped) && Pending(s'.sys, v, id)
    ensures if id == id1 then v == u else Pending(s.sys, v, id) && id !in used && id !in dropped
  {
    if v != u {
      assert Pending(s.sys, v, id);
      assert forall k :: k in PendingIds(s.sys, u) ==> Pending(s.sys, u, k);
    } else if id != id1 {
      assert id in PendingIds(s'.sys, u) - {id1};
    }
  }

  /** An issued id that was neither used nor dropped is still pending somewhere. */
  lemma NothingLost(s: State, s': State, u: Uuid, id1: Uuid, used: set<Uuid>, dropped: set<Uuid>, id: Uuid)
    requires Conserved(s) && MovedAt(s, s', u, id1, used, dropped)
    requires id in s'.issued && id !in s'.consumed && id !in s'.expired
    ensures exists v :: Pending(s'.sys, v, id)
  {
    if id in PendingIds(s'.sys, u) {
      assert Pending(s'.sys, u, id);
    } else {
      var v :| Pending(s.sys, v, id);
      assert v == u ==> id in PendingIds(s.sys, u) - used - dropped;
      assert Pending(s'.sys, v, id);
    }
  }

  lemma ConservedMove(s: State, s': State, u: Uuid, id1: Uuid, used: set<Uuid>, dropped: set<Uuid>)
    requires Conserved(s) && MovedAt(s, s', u, id1, used, dropped)
    ensures Conserved(s')
  {
    assert forall k :: k in PendingIds(s.sys, u) ==> Pending(s.sys, u, k);
    forall v, id | Pending(s'.sys, v, id)
      ensures id in s'.issued && id !in s'.consumed && id !in s'.expired
      ensures if id == id1 then v == u else Pending(s.sys, v, id)
    {
      PendingCameFrom(s, s', u, id1, used, dropped, v, id);
    }
    forall id | id in s'.issued && id !in s'.consumed && id !in s'.expired ensures exists v :: Pending(s'.sys, v, id) {
      NothingLost(s, s', u, id1, used, dropped, id);
    }
  }

  lemma EffectMoves(sys: Sys, t: Target, env: Env, p: Pair)
    requires CommandEffect(sys, t, env, p) && env.id1 !in PendingIds(sys, t.u)
    ensures Moved(PendingIds(sys, t.u), p.ep.pending.Keys, env.id1, Consumed(sys, t), Expired(sys, t, env.now))
  {
  }

  lemma StepStores(s: State, st: Step, s': State, t: Target)
    requires Next(s, st, s') && Resolve(s.sys.lh, st.act) == Some(t)
    ensures t.u in s'.sys.eps && s'.sys.eps == s.sys.eps[t.u := s'.sys.eps[t.u]]
    ensures st.env.id1 !in s.issued && s'.issued == s.issued + PendingIds(s'.sys, t.u)
    ensures s'.consumed == s.consumed + Consumed(s.sys, t)
    ensures s'.expired == s.expired + Expired(s.sys, t, st.env.now)
  {
  }

  lemma StepMoves(s: State, st: Step, s': State, t: Target)
    requires Inv(s) && Next(s, st, s') && Resolve(s.sys.lh, st.act) == Some(t)
    ensures MovedAt(s, s', t.u, st.env.id1, Consumed(s.sys, t), Expired(s.sys, t, st.env.now))
  {
    CommandNext(s, st, s', t);
    assert !Pending(s.sys, t.u, st.env.id1);
    EffectMoves(s.sys, t, st.env, Pair(s'.sys.lh, s'.sys.eps[t.u]));
    StepStores(s, st, s', t);
  }

  lemma ConservedNext(s: State, st: Step, s': State)
    requires Inv(s) && Next(s, st, s')
    ensures Conserved(s')
  {
    var t := Resolve(s.sys.lh, st.act);
    if t.Some? {
      StepMoves(s, st, s', t.value);
      ConservedMove(s, s', t.value.u, st.env.id1, Consumed(s.sys, t.value), Expired(s.sys, t.value, st.env.now));
    } else {
      assert forall v, k :: Pending(s'.sys, v, k) == Pending(s.sys, v, k);
    }
  }

  lemma TornKnownNext(s: State, st: Step, s': State)
    requires Inv(s) && Next(s, st, s')
    ensures TornKnown(s') && s'.now > MINUTE
  {
    var t := Resolve(s.sys.lh, st.act);
    if t.Some? {
      var u, env := t.value.u, st.env;
      TargetEffect(s, st, t.value);
      var p := EpStep(s.sys, t.value, env).value;
      assert !Pending(s.sys, u, env.id1);
      forall k | k in p.ep.pending && k != env.id1 ensures k in s.issued && k in s'.issued {
        assert Pending(s.sys, u, k);
      }
      forall v, k | Pending(s'.sys, v, k) ensures s'.sys.eps[v].pending[k].op == RaftInfo <==> k in s'.torn {
        if v != u || k != env.id1 {
          assert Pending(s.sys, v, k);
        }
      }
    } else {
      assert forall v, k :: Pending(s'.sys, v, k) == Pending(s.sys, v, k);
    }
  }

  /** The invariant is inductive. */
  lemma InvNext(s: State, st: Step, s': State)
    requires Inv(s) && Next(s, st, s')
    ensures Inv(s')
  {
    WatchIndexNext(s, st, s');
    EndpointsNext(s, st, s');
    ConservedNext(s, st, s');
    TornKnownNext(s, st, s');
  }
}
