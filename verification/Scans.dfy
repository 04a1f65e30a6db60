/** What lsof scans decide: who is removed, when, and that the removal comes. */
module Scans {
  import opened Lookout
  import opened EndpointSpec
  import opened EndpointLemmas
  import opened System
  import opened Effects
  import opened Runs

  lemma ScanNext(r: Run, i: nat, u: Uuid)
    requires Valid(r) && i < |r.steps|
    ensures r.states[i + 1].sys.lh.gen == r.states[i].sys.lh.gen + if r.steps[i].act.ScanBegin? then 1 else 0
    ensures r.states[i + 1].scanning ==
              (r.steps[i].act.ScanBegin? || (r.states[i].scanning && !r.steps[i].act.ScanEnd?))
    ensures r.steps[i].act.ScanBegin? ==> !r.states[i].scanning
    ensures u in r.states[i].sys.eps ==> u in r.states[i + 1].sys.eps
    ensures u in r.states[i + 1].sys.eps ==>
              if Sights(r, i, u) then r.states[i + 1].sys.eps[u].lsofGen == r.states[i].sys.lh.gen
              else u in r.states[i].sys.eps &&
                   r.states[i + 1].sys.eps[u].lsofGen == r.states[i].sys.eps[u].lsofGen
  {
    StepAt(r, i);
    var s, st := r.states[i], r.steps[i];
    var t := Resolve(s.sys.lh, st.act);
    if t.Some? {
      TargetKept(s, st, t.value);
      ClockNext(s, st, r.states[i + 1], t.value);
    }
    if t.None? || t.value.u != u {
      Framed(s, st, r.states[i + 1], u);
    }
  }

  lemma GenBounds(r: Run, i: nat, u: Uuid)
    requires Valid(r) && i < |r.states| && u in r.states[i].sys.eps
    ensures r.states[i].sys.eps[u].lsofGen <= r.states[i].sys.lh.gen
  {
    Reachable(r, i);
  }

  /** Generations only grow, and an endpoint's stamp with them. */
  lemma {:induction false} GenGrows(r: Run, i: nat, j: nat, u: Uuid)
    requires Valid(r) && i <= j < |r.states|
    ensures r.states[i].sys.lh.gen <= r.states[j].sys.lh.gen
    ensures u in r.states[i].sys.eps ==>
              u in r.states[j].sys.eps && r.states[i].sys.eps[u].lsofGen <= r.states[j].sys.eps[u].lsofGen
    decreases j
  {
    if i < j {
      GenGrows(r, i, j - 1, u);
      ScanNext(r, j - 1, u);
      if u in r.states[j - 1].sys.eps {
        GenBounds(r, j - 1, u);
      }
    }
  }

  predicate NoScanBegins(r: Run, i: nat, j: nat)
    requires j <= |r.steps|
  {
    forall m :: i <= m < j ==> !r.steps[m].act.ScanBegin?
  }

  lemma {:induction false} GenSame(r: Run, i: nat, j: nat, u: Uuid)
    requires Valid(r) && i <= j <= |r.steps| && NoScanBegins(r, i, j)
    ensures r.states[i].sys.lh.gen == r.states[j].sys.lh.gen
    decreases j
  {
    if i < j {
      GenSame(r, i, j - 1, u);
      ScanNext(r, j - 1, u);
    }
  }

  // An endpoint every scan sees

  predicate SightedThisScan(r: Run, e: nat, u: Uuid)
    requires e <= |r.steps| <= |r.states|
  {
    exists j: nat :: j < e && Sights(r, j, u) && NoScanBegins(r, j + 1, e)
  }

  predicate SeenByEveryScan(r: Run, u: Uuid)
    requires |r.steps| <= |r.states|
  {
    forall e: nat :: e < |r.steps| && r.steps[e].act.ScanEnd? && u in r.states[e].sys.eps ==> SightedThisScan(r, e, u)
  }

  lemma {:induction false} StampFresh(r: Run, i: nat, u: Uuid)
    requires Valid(r) && i < |r.states| && SeenByEveryScan(r, u) && u in r.states[i].sys.eps
    ensures r.states[i].sys.eps[u].lsofGen + (if r.states[i].scanning then 1 else 0) >= r.states[i].sys.lh.gen
  {
    if i > 0 {
      ScanNext(r, i - 1, u);
      if u in r.states[i - 1].sys.eps {
        StampFresh(r, i - 1, u);
        if r.steps[i - 1].act.ScanEnd? {
          var j: nat :| j < i - 1 && Sights(r, j, u) && NoScanBegins(r, j + 1, i - 1);
          ScanNext(r, j, u);
          SightedExists(r, j, u);
          GenSame(r, j + 1, i - 1, u);
          GenGrows(r, j + 1, i - 1, u);
        }
      }
    }
  }

  lemma SightedExists(r: Run, j: nat, u: Uuid)
    requires Valid(r) && j < |r.steps| && Sights(r, j, u)
    ensures u in r.states[j + 1].sys.eps
  {
    StepAt(r, j);
  }

  predicate MovesToRemoving(r: Run, k: nat, u: Uuid)
    requires k < |r.steps| && |r.states| == |r.steps| + 1
  {
    && u in r.states[k].sys.eps && r.states[k].sys.eps[u].state != Removing
    && u in r.states[k + 1].sys.eps && r.states[k + 1].sys.eps[u].state == Removing
  }

  lemma RemovalIsStale(r: Run, k: nat, u: Uuid)
    requires Valid(r) && k < |r.steps| && MovesToRemoving(r, k, u)
    ensures r.steps[k].act == CleanOne(u)
    ensures TwoScansOld(r.states[k].sys.eps[u], r.states[k].sys.lh.gen)
  {
    StepAt(r, k);
    var s, st := r.states[k], r.steps[k];
    var t := Resolve(s.sys.lh, st.act);
    if t.Some? && t.value.u == u {
      ClockNext(s, st, r.states[k + 1], t.value);
    } else {
      Framed(s, st, r.states[k + 1], u);
    }
  }

  /** An endpoint that every completed scan sees is never moved to Removing, whatever is
      interleaved with the scans. */
  lemma SeenIsNeverRemoved(r: Run, k: nat, u: Uuid)
    requires Valid(r) && k < |r.steps| && SeenByEveryScan(r, u)
    ensures !MovesToRemoving(r, k, u)
  {
    if MovesToRemoving(r, k, u) {
      RemovalIsStale(r, k, u);
      StampFresh(r, k, u);
      assert false;
    }
  }

  // Each removal follows a whole scan that missed the endpoint

  lemma {:induction false} FindBegin(r: Run, k: nat, g: nat) returns (i: nat)
    requires Valid(r) && k < |r.states| && r.states[k].sys.lh.gen > g
    ensures i < k && r.steps[i].act.ScanBegin? && r.states[i].sys.lh.gen == g
  {
    if k == 0 {
      assert false;
    } else {
      ScanNext(r, k - 1, NIL);
      if r.states[k - 1].sys.lh.gen > g {
        i := FindBegin(r, k - 1, g);
      } else {
        i := k - 1;
      }
    }
  }

  lemma {:induction false} FindEnd(r: Run, i: nat, k: nat) returns (j: nat)
    requires Valid(r) && i <= k < |r.states| && r.states[i].scanning && !r.states[k].scanning
    ensures i <= j < k && r.steps[j].act.ScanEnd?
    decreases k
  {
    ScanNext(r, k - 1, NIL);
    if r.states[k - 1].scanning {
      j := k - 1;
    } else {
      j := FindEnd(r, i, k - 1);
    }
  }

  predicate Unsighted(r: Run, i: nat, k: nat, u: Uuid)
    requires k <= |r.steps| <= |r.states|
  {
    forall m: nat :: i <= m < k ==> !Sights(r, m, u)
  }

  lemma {:induction false} BornBySighting(r: Run, i: nat, k: nat, u: Uuid)
    requires Valid(r) && i <= k < |r.states| && Unsighted(r, i, k, u) && u in r.states[k].sys.eps
    ensures u in r.states[i].sys.eps
    decreases k
  {
    if i < k {
      ScanNext(r, k - 1, u);
      assert !Sights(r, k - 1, u);
      BornBySighting(r, i, k - 1, u);
    }
  }

  lemma StampUnchanged(r: Run, i: nat, k: nat, u: Uuid)
    requires Valid(r) && i <= k < |r.states| && u in r.states[k].sys.eps
    requires r.states[i].sys.lh.gen > r.states[k].sys.eps[u].lsofGen
    ensures Unsighted(r, i, k, u)
  {
    forall m: nat | i <= m < k ensures !Sights(r, m, u) {
      if Sights(r, m, u) {
        SightedExists(r, m, u);
        ScanNext(r, m, u);
        GenGrows(r, i, m, u);
        GenGrows(r, m + 1, k, u);
        assert false;
      }
    }
  }

  /** Each move to Removing follows a whole scan, begun after the endpoint was last stamped,
      that did not see it; nothing sighted it from the scan's begin up to the move. */
  lemma RemovalFollowsMissedScan(r: Run, k: nat, u: Uuid) returns (i: nat, j: nat)
    requires Valid(r) && k < |r.steps| && MovesToRemoving(r, k, u)
    ensures i < j < k && r.steps[i].act.ScanBegin? && r.steps[j].act.ScanEnd? && NoScanBegins(r, i + 1, j)
    ensures u in r.states[i].sys.eps && Unsighted(r, i, k, u)
  {
    RemovalIsStale(r, k, u);
    var g := r.states[k].sys.eps[u].lsofGen;
    i := FindBegin(r, k, g);
    var i2 := FindBegin(r, k, g + 1);
    ScanNext(r, i, u);
    ScanNext(r, i2, u);
    if i2 <= i {
      GenGrows(r, i2, i, u);
    }
    j := FindEnd(r, i + 1, i2);
    forall m | i + 1 <= m < j ensures !r.steps[m].act.ScanBegin? {
      GenGrows(r, i + 1, m, u);
      ScanNext(r, m, u);
      GenGrows(r, m + 1, i2, u);
    }
    StampUnchanged(r, i + 1, k, u);
    assert !Sights(r, i, u);
    BornBySighting(r, i, k, u);
  }

  // Convergence

  predicate BothStale(s: State, u: Uuid) {
    && u in s.sys.eps
    && TwoScansOld(s.sys.eps[u], s.sys.lh.gen)
    && Silent(s.sys.eps[u], s.now)
  }

  /** Step m neither sights u nor completes a command on u with a readable reply. */
  predicate Quiet(r: Run, m: nat, u: Uuid)
    requires m < |r.steps| <= |r.states|
  {
    && !Sights(r, m, u)
    && var t := Resolve(r.states[m].sys.lh, r.steps[m].act);
       (t.Some? && t.value.u == u && t.value.op.Reply? && t.value.op.id in Before(r.states[m].sys, u).pending ==>
          ReplyFile(Before(r.states[m].sys, u).pending[t.value.op.id], t.value.op.id, r.steps[m].env).Unreadable?)
  }

  function Rank(s: Epstate): nat {
    match s
    case Running => 2
    case Removing => 0
    case _ => 1
  }

  function Passes(r: Run, i: nat, j: nat, u: Uuid): nat
    requires i <= j <= |r.steps|
    decreases j
  {
    if i == j then 0 else Passes(r, i, j - 1, u) + if r.steps[j - 1].act == CleanOne(u) then 1 else 0
  }

  lemma QuietEffect(sys: Sys, t: Target, env: Env)
    requires t.u in sys.eps && Local(sys.lh, sys.eps[t.u], env.now) && KernelFits(sys.lh, sys.eps[t.u], env.kernel)
    requires env.id1 !in sys.eps[t.u].pending && !t.op.Sighting? && EpStep(sys, t, env).Ok?
    requires TwoScansOld(sys.eps[t.u], sys.lh.gen) && Silent(sys.eps[t.u], env.now)
    requires t.op.Reply? && t.op.id in sys.eps[t.u].pending ==>
               ReplyFile(sys.eps[t.u].pending[t.op.id], t.op.id, env).Unreadable?
    ensures var ep, e := sys.eps[t.u], EpStep(sys, t, env).value.ep;
            && e.lastSeen == ep.lastSeen
            && Rank(e.state) <= Rank(ep.state)
            && (t.op.Sweep? ==> Rank(e.state) < Rank(ep.state) || Rank(e.state) == 0)
  {
    match t.op
    case Sweep => SweepEffect(sys.lh, sys.eps[t.u], env);
    case Probe => ProbeEffect(sys.lh, sys.eps[t.u], env);
    case Reply(id) => CompleteKeeps(sys.lh, sys.eps[t.u], id, env);
  }

  lemma QuietNext(r: Run, m: nat, u: Uuid)
    requires Valid(r) && m < |r.steps| && BothStale(r.states[m], u) && Quiet(r, m, u)
    ensures BothStale(r.states[m + 1], u)
    ensures var a, b := Rank(r.states[m].sys.eps[u].state), Rank(r.states[m + 1].sys.eps[u].state);
            b <= a && (r.steps[m].act == CleanOne(u) ==> b < a || b == 0)
  {
    StepAt(r, m);
    ScanNext(r, m, u);
    var s, st := r.states[m], r.steps[m];
    var t := Resolve(s.sys.lh, st.act);
    if t.Some? && t.value.u == u {
      TargetKept(s, st, t.value);
      assert !Pending(s.sys, u, st.env.id1);
      QuietEffect(s.sys, t.value, st.env);
    } else {
      Framed(s, st, r.states[m + 1], u);
    }
  }

  /** An endpoint both unseen by scans and silent for 60 s, and staying so, is in Removing after
      two further cleaning passes and stays there, whatever else runs in between. */
  lemma {:induction false} Convergence(r: Run, i: nat, j: nat, u: Uuid)
    requires Valid(r) && i <= j < |r.states| && BothStale(r.states[i], u)
    requires forall m: nat :: i <= m < j ==> Quiet(r, m, u)
    ensures BothStale(r.states[j], u)
    ensures var a, b := Rank(r.states[i].sys.eps[u].state), Rank(r.states[j].sys.eps[u].state);
            b == 0 || b + Passes(r, i, j, u) <= a
    ensures Passes(r, i, j, u) >= 2 ==> r.states[j].sys.eps[u].state == Removing
    decreases j
  {
    if i < j {
      Convergence(r, i, j - 1, u);
      QuietNext(r, j - 1, u);
    }
  }
}
