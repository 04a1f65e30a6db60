/** Theorems about every run of the monitor, however its activities interleave. */
module Runs {
  import opened Lookout
  import opened EndpointSpec
  import opened EndpointLemmas
  import opened System
  import opened Effects

  // Safety

  lemma {:induction false} Reachable(r: Run, i: nat)
    requires Valid(r) && i < |r.states|
    ensures Inv(r.states[i])
  {
    if i == 0 {
      assert forall u, id :: !Pending(r.states[0].sys, u, id);
    } else {
      Reachable(r, i - 1);
      assert Follows(r, i - 1);
      InvNext(r.states[i - 1], r.steps[i - 1], r.states[i]);
    }
  }

  lemma StepAt(r: Run, i: nat)
    requires Valid(r) && i < |r.steps|
    ensures Inv(r.states[i])
    ensures Next(r.states[i], r.steps[i], r.states[i + 1])
  {
    Reachable(r, i);
    assert Follows(r, i);
  }

  /** Step j as seen by the endpoint it concerns, its commands first, then its stamps and clocks,
      and as seen by any other endpoint. */
  lemma CommandsAt(r: Run, j: nat, t: Target)
    requires Valid(r) && j < |r.steps| && Resolve(r.states[j].sys.lh, r.steps[j].act) == Some(t)
    ensures t.u in r.states[j + 1].sys.eps
    ensures CommandEffect(r.states[j].sys, t, r.steps[j].env,
                          Pair(r.states[j + 1].sys.lh, r.states[j + 1].sys.eps[t.u]))
    ensures !Pending(r.states[j].sys, t.u, r.steps[j].env.id1) && r.steps[j].env.id1 !in r.states[j].issued
  {
    StepAt(r, j);
    CommandNext(r.states[j], r.steps[j], r.states[j + 1], t);
  }

  lemma ClockAt(r: Run, j: nat, t: Target)
    requires Valid(r) && j < |r.steps| && Resolve(r.states[j].sys.lh, r.steps[j].act) == Some(t)
    ensures t.u in r.states[j + 1].sys.eps
    ensures ClockEffect(r.states[j].sys, t, r.steps[j].env,
                        Pair(r.states[j + 1].sys.lh, r.states[j + 1].sys.eps[t.u]))
  {
    StepAt(r, j);
    ClockNext(r.states[j], r.steps[j], r.states[j + 1], t);
  }

  predicate Concerns(r: Run, j: nat, u: Uuid)
    requires j < |r.steps| <= |r.states|
  {
    var t := Resolve(r.states[j].sys.lh, r.steps[j].act);
    t.Some? && t.value.u == u
  }

  lemma OthersAt(r: Run, j: nat, u: Uuid)
    requires Valid(r) && j < |r.steps| && !Concerns(r, j, u)
    ensures u in r.states[j + 1].sys.eps <==> u in r.states[j].sys.eps
    ensures u in r.states[j].sys.eps ==> r.states[j + 1].sys.eps[u] == r.states[j].sys.eps[u]
  {
    StepAt(r, j);
    Framed(r.states[j], r.steps[j], r.states[j + 1], u);
  }

  lemma LocalAt(r: Run, j: nat, t: Target)
    requires Valid(r) && j < |r.steps| && Resolve(r.states[j].sys.lh, r.steps[j].act) == Some(t)
    requires t.u in r.states[j].sys.eps
    ensures Local(r.states[j].sys.lh, r.states[j].sys.eps[t.u], r.steps[j].env.now)
    ensures KernelFits(r.states[j].sys.lh, r.states[j].sys.eps[t.u], r.steps[j].env.kernel)
    ensures r.steps[j].env.id1 !in r.states[j].sys.eps[t.u].pending
    ensures t.u in r.states[j + 1].sys.eps
    ensures EpStep(r.states[j].sys, t, r.steps[j].env) ==
              Ok(Pair(r.states[j + 1].sys.lh, r.states[j + 1].sys.eps[t.u]))
  {
    StepAt(r, j);
    TargetKept(r.states[j], r.steps[j], t);
    assert !Pending(r.states[j].sys, t.u, r.steps[j].env.id1);
  }

  lemma TornAt(r: Run, i: nat, u: Uuid, k: Uuid)
    requires Valid(r) && i < |r.states| && Pending(r.states[i].sys, u, k)
    ensures r.states[i].sys.eps[u].pending[k].op == RaftInfo <==> k in r.states[i].torn
    ensures k in r.states[i].torn ==> r.states[i].sys.eps[u].pending[k].start == ZERO
    ensures k in r.states[i].issued
  {
    Reachable(r, i);
  }

  /** No run, however continued, dies on one of its own consistency checks. */
  lemma NoInternalFatal(r: Run, i: nat, st: Step)
    requires Valid(r) && i < |r.states| && Guard(r.states[i], st)
    ensures !Apply(r.states[i].sys, st).Fatal?
  {
    Reachable(r, i);
    NoFatal(r.states[i], st);
  }

  /** `wmap` and the endpoints are exact inverses in every reachable state. */
  lemma WatchesAreInverse(r: Run, i: nat)
    requires Valid(r) && i < |r.states|
    ensures var lh, eps := r.states[i].sys.lh, r.states[i].sys.eps;
            && (forall u :: u in eps ==>
                  && eps[u].uuid == u
                  && (eps[u].watched <==> eps[u].state in {Init, HasIdentity, Running, Down})
                  && (eps[u].watched <==> eps[u].wid >= 0))
            && (forall w, u :: w in lh.wmap && lh.wmap[w] == u <==> u in eps && eps[u].watched && eps[u].wid == w)
            && lh.rootWd !in lh.wmap
  {
    Reachable(r, i);
    var lh, eps := r.states[i].sys.lh, r.states[i].sys.eps;
    forall u | u in eps ensures Local(lh, eps[u], r.states[i].now) && eps[u].uuid == u {
    }
  }

  /** Every endpoint has at most one pending command. It is the one issued under its id, of a kind
      that matches the application and the state, unless it was torn: then it carries the nil
      uuid, the zero time and the bare fallback query, on a PMDB endpoint. */
  lemma PendingCommands(r: Run, i: nat, u: Uuid)
    requires Valid(r) && i < |r.states| && u in r.states[i].sys.eps
    ensures var ep := r.states[i].sys.eps[u];
            && |ep.pending| <= 1
            && (forall id :: id in ep.pending ==>
                  var c := ep.pending[id];
                  if id in r.states[i].torn then
                    ep.app == Pmdb && c == Cmd(NIL, u, "GET /raft_root_entry/.*/.*", RaftInfo, ZERO)
                  else
                    && c.id == id && c.ep == u && c.op in {Identify, SystemInfo, NISDInfo, NCLIENTInfo}
                    && (c.op == Identify ==> ep.state in {Init, Removing})
                    && (c.op == SystemInfo ==> ep.app == Pmdb)
                    && (c.op == NISDInfo ==> ep.app == Nisd)
                    && (c.op == NCLIENTInfo ==> ep.app == Nclient))
            && (ep.state in {HasIdentity, Running, Down} ==> ep.app != Unrecognized)
  {
    Reachable(r, i);
    OnePending(r.states[i].sys.eps[u].pending);
    forall id | id in r.states[i].sys.eps[u].pending ensures Pending(r.states[i].sys, u, id) {
    }
  }

  /** Step j issues a query to a PMDB endpoint under id, and the write of its input file fails. */
  predicate Tears(r: Run, j: nat, id: Uuid)
    requires j < |r.steps| <= |r.states|
  {
    var t := Resolve(r.states[j].sys.lh, r.steps[j].act);
    && t.Some? && r.steps[j].env.id1 == id && !r.steps[j].env.wrote1
    && AsksPmdb(Before(r.states[j].sys, t.value.u), t.value.op, r.steps[j].env)
  }

  lemma TornNext(r: Run, j: nat, id: Uuid)
    requires Valid(r) && j < |r.steps|
    ensures id in r.states[j + 1].torn <==> id in r.states[j].torn || Tears(r, j, id)
  {
    StepAt(r, j);
  }

  lemma {:induction false} TornExactly(r: Run, i: nat, id: Uuid)
    requires Valid(r) && i < |r.states|
    ensures id in r.states[i].torn <==> exists j: nat :: j < i && Tears(r, j, id)
  {
    if i > 0 {
      TornExactly(r, i - 1, id);
      TornNext(r, i - 1, id);
    }
  }

  /** A pending command is the one issued under its key, with its own kind and its own OUTFILE
      line, if and only if no step that issued a PMDB query under that key failed to write it. */
  lemma IntactIff(r: Run, i: nat, u: Uuid, id: Uuid)
    requires Valid(r) && i < |r.states| && Pending(r.states[i].sys, u, id)
    ensures var ep := r.states[i].sys.eps[u];
            var c := ep.pending[id];
            (c.id == id && OpFits(ep, c.op) && c.text == FullText(c.op, id))
            <==> !(exists j: nat :: j < i && Tears(r, j, id))
    ensures forall env :: ReplyFile(r.states[i].sys.eps[u].pending[id], id, env) ==
              if exists j: nat :: j < i && Tears(r, j, id) then env.nilOut else env.out
  {
    Reachable(r, i);
    TornExactly(r, i, id);
  }

  lemma SameText(op: CmdOp, id: Uuid)
    ensures FullText(op, id) == Request(op) + "\nOUTFILE /" + ("lkoep_" + id) + "\n"
  {
    assert "\nOUTFILE /lkoep_" == "\nOUTFILE /" + "lkoep_";
  }

  /** The file an intact pending command asks for, reported by inotify, brings back that command
      exactly when the event is on the watch of the endpoint that was asked. A torn command asks
      for no file: the event can still name its key, but the reply is then looked for elsewhere. */
  lemma ReplyFindsItsCommand(r: Run, i: nat, u: Uuid, id: Uuid, wd: int)
    requires Valid(r) && i < |r.states| && Pending(r.states[i].sys, u, id)
    ensures r.states[i].sys.eps[u].pending[id].text ==
              if id in r.states[i].torn then "GET /raft_root_entry/.*/.*"
              else Request(r.states[i].sys.eps[u].pending[id].op) + "\nOUTFILE /" + ("lkoep_" + id) + "\n"
    ensures var lh, ep := r.states[i].sys.lh, r.states[i].sys.eps[u];
            (Dispatch(lh, wd, "lkoep_" + id, Some(id)) == Some(Target(u, Reply(id)))) <==>
            (ep.watched && wd == ep.wid)
  {
    WatchesAreInverse(r, i);
    Reachable(r, i);
    var lh := r.states[i].sys.lh;
    assert LOOKOUT_PREFIX <= "lkoep_" + id;
    assert !("." <= "lkoep_" + id) by {
      assert ("lkoep_" + id)[0] == 'l';
    }
    SameText(r.states[i].sys.eps[u].pending[id].op, id);
    assert wd in lh.wmap && lh.wmap[wd] == u <==> r.states[i].sys.eps[u].watched && r.states[i].sys.eps[u].wid == wd;
  }

  // Lifecycle edges

  /** Step i stamps u with the current generation: a scan or a create event found it. */
  predicate Sights(r: Run, i: nat, u: Uuid)
    requires i < |r.steps| <= |r.states|
  {
    Resolve(r.states[i].sys.lh, r.steps[i].act) == Some(Target(u, Sighting))
  }

  /** Endpoints are never dropped, are never seen in the unknown or the wildcard state, and move
      only along the lifecycle's edges. */
  lemma LifecycleEdges(r: Run, i: nat, u: Uuid)
    requires Valid(r) && i < |r.steps| && u in r.states[i + 1].sys.eps
    ensures r.states[i + 1].sys.eps[u].state !in {Unknown, Any}
    ensures u !in r.states[i].sys.eps ==> r.states[i + 1].sys.eps[u].state == Init && Sights(r, i, u)
    ensures u in r.states[i].sys.eps ==>
              Edge(r.states[i].sys.eps[u].state, r.states[i + 1].sys.eps[u].state, r.steps[i].act.Late?)
  {
    var s, st, s' := r.states[i], r.steps[i], r.states[i + 1];
    StepAt(r, i);
    var t := Resolve(s.sys.lh, st.act);
    if t.Some? && t.value.u == u {
      TargetKept(s, st, t.value);
      if u !in s.sys.eps {
        ChangeStateKeeps(s.sys.lh, Before(s.sys, u), Init, st.env);
      }
    } else {
      Framed(s, st, s', u);
    }
  }

  /** Removing is left only by a sighting, for Init, or by a completion on an endpoint that was
      looked up before it was moved to Removing. */
  lemma RemovingIsLeftBy(r: Run, i: nat, u: Uuid)
    requires Valid(r) && i < |r.steps| && u in r.states[i].sys.eps && r.states[i].sys.eps[u].state == Removing
    ensures u in r.states[i + 1].sys.eps
    ensures r.states[i + 1].sys.eps[u].state == Removing || Sights(r, i, u) ||
            (exists id :: r.steps[i].act == Late(u, id))
    ensures Sights(r, i, u) ==> r.states[i + 1].sys.eps[u].state == Init
  {
    var s, st := r.states[i], r.steps[i];
    if Concerns(r, i, u) {
      var t := Resolve(s.sys.lh, st.act).value;
      ClockAt(r, i, t);
      LocalAt(r, i, t);
      if t.op.Sighting? {
        SightKeeps(s.sys.lh, s.sys.eps[u], st.env);
      } else if st.act.Late? {
        assert st.act == Late(u, st.act.id);
      } else if t.op.Reply? {
        WatchedByEvent(r, i, t);
      }
    } else {
      OthersAt(r, i, u);
    }
  }

  lemma WatchedByEvent(r: Run, i: nat, t: Target)
    requires Valid(r) && i < |r.steps| && Resolve(r.states[i].sys.lh, r.steps[i].act) == Some(t)
    requires t.op.Reply? && !r.steps[i].act.Late?
    ensures t.u in r.states[i].sys.eps && r.states[i].sys.eps[t.u].watched
    ensures r.states[i].sys.eps[t.u].state != Removing
  {
    Reachable(r, i);
    assert r.steps[i].act.Event?;
  }

  /** A late completion brings an endpoint out of Removing exactly when its id is pending there
      and the reply answers it: a decoded info reply, or one that names an application. */
  lemma LateRevivesIff(r: Run, i: nat, u: Uuid, id: Uuid)
    requires Valid(r) && i < |r.steps| && r.steps[i].act == Late(u, id)
    requires u in r.states[i].sys.eps && r.states[i].sys.eps[u].state == Removing
    ensures u in r.states[i + 1].sys.eps
    ensures var ep, env := r.states[i].sys.eps[u], r.steps[i].env;
            r.states[i + 1].sys.eps[u].state != Removing <==>
            id in ep.pending && Answers(ep.pending[id], ReplyFile(ep.pending[id], id, env))
  {
    var s, st := r.states[i], r.steps[i];
    StepAt(r, i);
    TargetKept(s, st, Target(u, Reply(id)));
    assert !Pending(s.sys, u, st.env.id1);
    CompleteKeeps(s.sys.lh, s.sys.eps[u], id, st.env);
  }

  lemma StaysNext(r: Run, j: nat, u: Uuid)
    requires Valid(r) && j < |r.steps| && u in r.states[j].sys.eps
    ensures u in r.states[j + 1].sys.eps
  {
    StepAt(r, j);
  }

  lemma {:induction false} EndpointsStay(r: Run, i: nat, j: nat, u: Uuid)
    requires Valid(r) && i <= j < |r.states| && u in r.states[i].sys.eps
    ensures u in r.states[j].sys.eps
    decreases j
  {
    if i < j {
      EndpointsStay(r, i, j - 1, u);
      StaysNext(r, j - 1, u);
    }
  }

  // Commands

  lemma HistoryNext(r: Run, j: nat)
    requires Valid(r) && j < |r.steps|
    ensures r.states[j].issued <= r.states[j + 1].issued
    ensures r.states[j].consumed <= r.states[j + 1].consumed
    ensures r.states[j].expired <= r.states[j + 1].expired
  {
    StepAt(r, j);
  }

  lemma {:induction false} HistoryGrows(r: Run, i: nat, j: nat)
    requires Valid(r) && i <= j < |r.states|
    ensures r.states[i].issued <= r.states[j].issued
    ensures r.states[i].consumed <= r.states[j].consumed
    ensures r.states[i].expired <= r.states[j].expired
    decreases j
  {
    if i < j {
      HistoryGrows(r, i, j - 1);
      HistoryNext(r, j - 1);
    }
  }

  /** In every reachable state an issued id is in exactly one place. */
  lemma CommandConservation(r: Run, i: nat, id: Uuid)
    requires Valid(r) && i < |r.states|
    ensures var s := r.states[i];
            && (id in s.issued <==> id in s.consumed || id in s.expired || exists u :: Pending(s.sys, u, id))
            && !(id in s.consumed && id in s.expired)
            && (forall u :: Pending(s.sys, u, id) ==> id !in s.consumed && id !in s.expired)
            && (forall u, v :: Pending(s.sys, u, id) && Pending(s.sys, v, id) ==> u == v)
  {
    Reachable(r, i);
  }

  predicate Completes(r: Run, i: nat, id: Uuid)
    requires i < |r.steps| <= |r.states|
  {
    var t := Resolve(r.states[i].sys.lh, r.steps[i].act);
    t.Some? && t.value.op == Reply(id) && id in Before(r.states[i].sys, t.value.u).pending
  }

  lemma CompletesFrom(r: Run, i: nat, id: Uuid)
    requires Valid(r) && i < |r.steps| && Completes(r, i, id)
    ensures id !in r.states[i].consumed && id !in r.states[i].expired
    ensures id in r.states[i + 1].consumed
  {
    StepAt(r, i);
    var t := Resolve(r.states[i].sys.lh, r.steps[i].act).value;
    assert Pending(r.states[i].sys, t.u, id);
  }

  /** An id completes at most once in a run, and an expired id never completes. */
  lemma CompletesOnce(r: Run, i: nat, j: nat, id: Uuid)
    requires Valid(r) && i < j < |r.steps| && Completes(r, j, id)
    ensures !Completes(r, i, id)
    ensures id !in r.states[i].expired
  {
    CompletesFrom(r, j, id);
    HistoryGrows(r, i, j);
    if Completes(r, i, id) {
      CompletesFrom(r, i, id);
      HistoryGrows(r, i + 1, j);
      assert false;
    }
  }

  /** Once an id has left pending, a completion naming it is ENOENT on every endpoint. */
  lemma SecondCompletionIsNoEntry(r: Run, i: nat, j: nat, id: Uuid, v: Uuid, env: Env)
    requires Valid(r) && i <= j < |r.states| && v in r.states[j].sys.eps
    requires id in r.states[i].consumed || id in r.states[i].expired
    ensures var sys := r.states[j].sys;
            Complete(sys.lh, sys.eps[v], id, env) == Ok(Completed(sys.lh, sys.eps[v], NoEntry))
  {
    Reachable(r, j);
    HistoryGrows(r, i, j);
    assert !Pending(r.states[j].sys, v, id);
  }

  // Queries are never lost

  /** The pending commands more than 60 s older than `since` are exactly the torn ones, and those
      were issued after `known`. */
  predicate RecentCommands(s: State, u: Uuid, since: int, known: set<Uuid>) {
    && u in s.sys.eps
    && forall k :: k in s.sys.eps[u].pending ==>
         && (s.sys.eps[u].pending[k].start >= since - MINUTE <==> k !in s.torn)
         && (k in s.torn ==> k !in known)
  }

  /** A step keeps the commands that were pending before it, and may issue its own. */
  predicate Renewed(s: State, st: Step, s': State, u: Uuid) {
    && u in s'.sys.eps
    && forall k :: k in s'.sys.eps[u].pending ==>
         var c := s'.sys.eps[u].pending[k];
         if Pending(s.sys, u, k) then c == s.sys.eps[u].pending[k] && (k in s'.torn <==> k in s.torn)
         else k !in s.issued && (c.start == if k in s'.torn then ZERO else st.env.now)
  }

  lemma CommandsRenewed(r: Run, j: nat, u: Uuid)
    requires Valid(r) && j < |r.steps| && u in r.states[j + 1].sys.eps
    ensures Renewed(r.states[j], r.steps[j], r.states[j + 1], u)
  {
    var s, s' := r.states[j], r.states[j + 1];
    if Concerns(r, j, u) {
      CommandsAt(r, j, Resolve(s.sys.lh, r.steps[j].act).value);
    } else {
      OthersAt(r, j, u);
    }
    forall k | k in s'.sys.eps[u].pending
      ensures k in s'.torn <==> s'.sys.eps[u].pending[k].op == RaftInfo
      ensures Pending(s.sys, u, k) ==> (k in s.torn <==> s.sys.eps[u].pending[k].op == RaftInfo)
    {
      TornAt(r, j + 1, u, k);
      if Pending(s.sys, u, k) {
        TornAt(r, j, u, k);
      }
    }
  }

  /** After a cleaning every pending command is young, and none is torn. */
  lemma CleanedIsRecent(r: Run, j: nat, u: Uuid)
    requires Valid(r) && j < |r.steps| && r.steps[j].act == CleanOne(u)
    ensures RecentCommands(r.states[j + 1], u, r.steps[j].env.now, r.states[j].issued)
  {
    var s' := r.states[j + 1];
    CommandsAt(r, j, Target(u, Sweep));
    TimeGrows(r, j);
    forall k | k in s'.sys.eps[u].pending
      ensures s'.sys.eps[u].pending[k].start >= r.steps[j].env.now - MINUTE && k !in s'.torn
    {
      TornAt(r, j + 1, u, k);
    }
  }

  lemma RecentNext(r: Run, j: nat, u: Uuid, since: int, known: set<Uuid>)
    requires Valid(r) && j < |r.steps| && MINUTE < since <= r.steps[j].env.now && known <= r.states[j].issued
    requires RecentCommands(r.states[j], u, since, known)
    ensures RecentCommands(r.states[j + 1], u, since, known)
  {
    StaysNext(r, j, u);
    CommandsRenewed(r, j, u);
  }

  lemma TimeGrows(r: Run, j: nat)
    requires Valid(r) && j < |r.steps|
    ensures MINUTE < r.states[j].now <= r.steps[j].env.now == r.states[j + 1].now
  {
    StepAt(r, j);
  }

  /** After a cleaning of u, at any later time, a pending command of u is at most 60 s older than
      that cleaning if and only if it is not torn, and a torn one was issued since. */
  lemma {:induction false} CommandsStayRecent(r: Run, i: nat, j: nat, u: Uuid)
    requires Valid(r) && i < j < |r.states| && r.steps[i].act == CleanOne(u)
    ensures RecentCommands(r.states[j], u, r.steps[i].env.now, r.states[i].issued)
    ensures r.states[j].now >= r.steps[i].env.now > MINUTE
    decreases j
  {
    TimeGrows(r, j - 1);
    if i < j - 1 {
      CommandsStayRecent(r, i, j - 1, u);
      HistoryGrows(r, i, j - 1);
      RecentNext(r, j - 1, u, r.steps[i].env.now, r.states[i].issued);
    } else {
      CleanedIsRecent(r, i, u);
    }
  }

  lemma PolledHasOne(r: Run, j: nat, u: Uuid)
    requires Valid(r) && j < |r.steps| && r.steps[j].act == PollOne(u)
    ensures u in r.states[j + 1].sys.eps
    ensures var ep := r.states[j + 1].sys.eps[u]; ep.state == Removing || |ep.pending| == 1
  {
    StepAt(r, j);
    CommandNext(r.states[j], r.steps[j], r.states[j + 1], Target(u, Probe));
    ClockNext(r.states[j], r.steps[j], r.states[j + 1], Target(u, Probe));
  }

  /** No lost reply wedges an endpoint: once it has been cleaned and then polled, with anything
      at all in between, an endpoint that is not being removed has exactly one pending command,
      which is at most 60 s older than the cleaning if and only if no failed PMDB write has torn
      it since. */
  lemma NoWedge(r: Run, i: nat, j: nat, u: Uuid)
    requires Valid(r) && i < j < |r.steps|
    requires r.steps[i].act == CleanOne(u) && r.steps[j].act == PollOne(u)
    ensures RecentCommands(r.states[j + 1], u, r.steps[i].env.now, r.states[i].issued)
    ensures var ep := r.states[j + 1].sys.eps[u]; ep.state == Removing || |ep.pending| == 1
  {
    CommandsStayRecent(r, i, j + 1, u);
    PolledHasOne(r, j, u);
  }

  /** A torn command is gone after the next cleaning of its endpoint, however soon that comes:
      its zero start time makes it stale at once. */
  lemma TornExpires(r: Run, i: nat, u: Uuid, id: Uuid)
    requires Valid(r) && i < |r.steps| && r.steps[i].act == CleanOne(u)
    requires Pending(r.states[i].sys, u, id) && id in r.states[i].torn
    ensures id in r.states[i + 1].expired && u in r.states[i + 1].sys.eps && r.states[i + 1].sys.eps[u].pending == map[]
  {
    var s, st := r.states[i], r.steps[i];
    LocalAt(r, i, Target(u, Sweep));
    SweepEffect(s.sys.lh, s.sys.eps[u], st.env);
    TornAt(r, i, u, id);
    TimeGrows(r, i);
    assert s.sys.eps[u].pending.Keys == {id};
    ExpiredAt(r, i, u);
  }

  lemma ExpiredAt(r: Run, i: nat, u: Uuid)
    requires Valid(r) && i < |r.steps| && r.steps[i].act == CleanOne(u)
    ensures r.states[i + 1].expired ==
              r.states[i].expired + Expired(r.states[i].sys, Target(u, Sweep), r.steps[i].env.now)
  {
    StepAt(r, i);
  }

  // Leaving Running

  predicate EntersRunning(r: Run, i: nat, u: Uuid)
    requires i < |r.steps| && |r.states| == |r.steps| + 1
  {
    && u in r.states[i + 1].sys.eps && r.states[i + 1].sys.eps[u].state == Running
    && Before(r.states[i].sys, u).state != Running
  }

  predicate HearsFrom(r: Run, i: nat, u: Uuid)
    requires i < |r.steps| <= |r.states|
  {
    var t := Resolve(r.states[i].sys.lh, r.steps[i].act);
    t.Some? && t.value.u == u && Updates(r.states[i].sys, t.value, r.steps[i].env)
  }

  lemma LastSeenNext(r: Run, j: nat, u: Uuid)
    requires Valid(r) && j < |r.steps|
    ensures u in r.states[j].sys.eps ==>
              u in r.states[j + 1].sys.eps && r.states[j + 1].sys.eps[u].lastSeen >= r.states[j].sys.eps[u].lastSeen
    ensures EntersRunning(r, j, u) || HearsFrom(r, j, u) ==>
              u in r.states[j + 1].sys.eps && r.states[j + 1].sys.eps[u].lastSeen == r.steps[j].env.now
  {
    var s, st, s' := r.states[j], r.steps[j], r.states[j + 1];
    StepAt(r, j);
    var t := Resolve(s.sys.lh, st.act);
    if t.Some? && t.value.u == u {
      TargetKept(s, st, t.value);
      ClockNext(s, st, s', t.value);
    } else {
      Framed(s, st, s', u);
    }
  }

  lemma {:induction false} LastSeenSince(r: Run, m: nat, j: nat, u: Uuid)
    requires Valid(r) && m < j < |r.states| && (EntersRunning(r, m, u) || HearsFrom(r, m, u))
    ensures u in r.states[j].sys.eps && r.states[j].sys.eps[u].lastSeen >= r.steps[m].env.now
    decreases j
  {
    LastSeenNext(r, j - 1, u);
    if m < j - 1 {
      LastSeenSince(r, m, j - 1, u);
    }
  }

  /** Running is left for Down only more than 60 s after every earlier update and every earlier
      entry to Running. */
  lemma DownOnlyAfterSilence(r: Run, m: nat, k: nat, u: Uuid)
    requires Valid(r) && m < k < |r.steps| && (EntersRunning(r, m, u) || HearsFrom(r, m, u))
    requires u in r.states[k].sys.eps && r.states[k].sys.eps[u].state == Running
    requires u in r.states[k + 1].sys.eps && r.states[k + 1].sys.eps[u].state != Running
    ensures r.states[k + 1].sys.eps[u].state == Down
    ensures r.steps[k].env.now - r.steps[m].env.now > MINUTE
  {
    var s, st := r.states[k], r.steps[k];
    StepAt(r, k);
    LastSeenSince(r, m, k, u);
    LifecycleEdges(r, k, u);
    var t := Resolve(s.sys.lh, st.act);
    if t.Some? && t.value.u == u {
      ClockNext(s, st, r.states[k + 1], t.value);
    } else {
      Framed(s, st, r.states[k + 1], u);
    }
  }

  // Staying in Running, and coming back to it

  predicate IsRunning(s: State, u: Uuid) {
    u in s.sys.eps && s.sys.eps[u].state == Running
  }

  /** Step m cleans or polls u and finds that it was last seen more than 60 s ago. */
  predicate FindsSilent(r: Run, m: nat, u: Uuid)
    requires m < |r.steps| <= |r.states|
  {
    && r.steps[m].act in {CleanOne(u), PollOne(u)}
    && u in r.states[m].sys.eps && Silent(r.states[m].sys.eps[u], r.steps[m].env.now)
  }

  /** Running ends exactly at a cleaning or polling that finds the endpoint silent. */
  lemma RunningEndsIff(r: Run, m: nat, u: Uuid)
    requires Valid(r) && m < |r.steps| && IsRunning(r.states[m], u)
    ensures u in r.states[m + 1].sys.eps
    ensures IsRunning(r.states[m + 1], u) <==> !FindsSilent(r, m, u)
  {
    var s, st := r.states[m], r.steps[m];
    if Concerns(r, m, u) {
      var t := Resolve(s.sys.lh, st.act).value;
      LocalAt(r, m, t);
      RunningEnds(s.sys, t, st.env);
    } else {
      OthersAt(r, m, u);
    }
  }

  lemma RunningEnds(sys: Sys, t: Target, env: Env)
    requires t.u in sys.eps && sys.eps[t.u].state == Running && env.id1 !in sys.eps[t.u].pending
    requires Local(sys.lh, sys.eps[t.u], env.now) && KernelFits(sys.lh, sys.eps[t.u], env.kernel)
    ensures EpStep(sys, t, env).Ok? ==>
              (EpStep(sys, t, env).value.ep.state == Running <==>
               !((t.op.Sweep? || t.op.Probe?) && Silent(sys.eps[t.u], env.now)))
  {
    match t.op
    case Sighting => SightKeeps(sys.lh, sys.eps[t.u], env);
    case Sweep => SweepEffect(sys.lh, sys.eps[t.u], env);
    case Probe => ProbeEffect(sys.lh, sys.eps[t.u], env);
    case Reply(id) => CompleteKeeps(sys.lh, sys.eps[t.u], id, env);
  }

  /** An endpoint that answers in time never leaves Running, whatever else happens: scans that
      miss it, lost or unreadable replies, failed writes. */
  lemma {:induction false} ResponsiveStaysRunning(r: Run, i: nat, j: nat, u: Uuid)
    requires Valid(r) && i <= j < |r.states| && IsRunning(r.states[i], u)
    requires forall m: nat :: i <= m < j ==> !FindsSilent(r, m, u)
    ensures IsRunning(r.states[j], u)
    decreases j
  {
    if i < j {
      ResponsiveStaysRunning(r, i, j - 1, u);
      RunningEndsIff(r, j - 1, u);
    }
  }

  /** Step m brings a reply that answers the pending command of u. */
  predicate Answered(r: Run, m: nat, u: Uuid)
    requires m < |r.steps| <= |r.states|
  {
    var t := Resolve(r.states[m].sys.lh, r.steps[m].act);
    && t.Some? && t.value.u == u && t.value.op.Reply?
    && var ep, id := Before(r.states[m].sys, u), t.value.op.id;
       id in ep.pending && Answers(ep.pending[id], ReplyFile(ep.pending[id], id, r.steps[m].env))
  }

  predicate KnownApp(s: State, u: Uuid) {
    u in s.sys.eps && s.sys.eps[u].state in {HasIdentity, Running, Down}
  }

  lemma AnsweredNext(r: Run, m: nat, u: Uuid)
    requires Valid(r) && m < |r.steps| && Answered(r, m, u)
    ensures u in r.states[m].sys.eps && u in r.states[m + 1].sys.eps
    ensures r.states[m + 1].sys.eps[u].state in {HasIdentity, Running}
    ensures r.states[m].sys.eps[u].state in {HasIdentity, Running, Down} ==>
              r.states[m + 1].sys.eps[u].state == Running
  {
    var s, st := r.states[m], r.steps[m];
    StepAt(r, m);
    var t := Resolve(s.sys.lh, st.act).value;
    TargetKept(s, st, t);
    assert !Pending(s.sys, u, st.env.id1);
    CompleteKeeps(s.sys.lh, s.sys.eps[u], t.op.id, st.env);
  }

  lemma {:induction false} StaysIdentified(r: Run, m: nat, n: nat, u: Uuid)
    requires Valid(r) && m <= n < |r.states| && KnownApp(r.states[m], u)
    requires forall x :: m <= x <= n && u in r.states[x].sys.eps ==> r.states[x].sys.eps[u].state != Removing
    ensures KnownApp(r.states[n], u)
    decreases n
  {
    if m < n {
      StaysIdentified(r, m, n - 1, u);
      EndpointsStay(r, m, n, u);
      LifecycleEdges(r, n - 1, u);
    }
  }

  /** The way back: two answers, with anything in between but a removal, make an endpoint
      Running, and it stays Running as long as it answers in time. */
  lemma Recovery(r: Run, m: nat, n: nat, j: nat, u: Uuid)
    requires Valid(r) && m < n < j < |r.states|
    requires Answered(r, m, u) && Answered(r, n, u)
    requires forall x :: m < x <= n && u in r.states[x].sys.eps ==> r.states[x].sys.eps[u].state != Removing
    requires forall x: nat :: n < x < j ==> !FindsSilent(r, x, u)
    ensures IsRunning(r.states[j], u)
  {
    AnsweredNext(r, m, u);
    StaysIdentified(r, m + 1, n, u);
    AnsweredNext(r, n, u);
    ResponsiveStaysRunning(r, n + 1, j, u);
  }

  // Steps applied one after the other

  /** What a method that applies a list of steps computes is what the run arrives at. */
  lemma AppliesNext(r: Run, j: nat)
    requires Valid(r) && j < |r.steps|
    ensures Apply(r.states[j].sys, r.steps[j]) == Ok(r.states[j + 1].sys)
  {
    StepAt(r, j);
  }

  lemma {:induction false} RunApplies(r: Run, i: nat, n: nat)
    requires Valid(r) && i + n < |r.states|
    ensures ApplyAll(r.states[i].sys, r.steps[i..i + n]) == Ok(r.states[i + n].sys)
    decreases n
  {
    if n > 0 {
      RunApplies(r, i, n - 1);
      var m := i + n - 1;
      AppliesNext(r, m);
      ApplyAllSnoc(r.states[i].sys, r.steps[i..m], r.steps[m]);
      assert r.steps[i..m] + [r.steps[m]] == r.steps[i..i + n];
    }
  }
}
