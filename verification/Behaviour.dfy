/** What each operation of the monitor does, over all runs, said in the terms of its interface: keys
    of a reply, texts of a command, numbers of seconds and of scans, names of events. */
module Behaviour {
  import opened Lookout
  import opened EndpointSpec
  import opened EndpointLemmas
  import opened System
  import opened Effects
  import opened Runs
  import opened Scans

  // Replies

  /** Step i brings a reply for command id of u. */
  predicate Replies(r: Run, i: nat, u: Uuid, id: Uuid)
    requires i < |r.steps| <= |r.states|
  {
    Resolve(r.states[i].sys.lh, r.steps[i].act) == Some(Target(u, Reply(id)))
  }

  lemma ReplyAt(r: Run, i: nat, u: Uuid, id: Uuid)
    requires Valid(r) && i < |r.steps| && Replies(r, i, u, id)
    ensures u in r.states[i].sys.eps && u in r.states[i + 1].sys.eps
    ensures AtMostOne(r.states[i].sys.eps[u].pending)
    ensures var c := Complete(r.states[i].sys.lh, r.states[i].sys.eps[u], id, r.steps[i].env);
            && c.Ok? && c.value.ep == r.states[i + 1].sys.eps[u]
            && CompletionEffect(r.states[i].sys.lh, r.states[i].sys.eps[u], id, r.steps[i].env, c.value)
  {
    StepAt(r, i);
    TargetKept(r.states[i], r.steps[i], Target(u, Reply(id)));
    LocalAt(r, i, Target(u, Reply(id)));
    CompleteKeeps(r.states[i].sys.lh, r.states[i].sys.eps[u], id, r.steps[i].env);
  }

  /** The application is decided by the keys at the top level of the reply: the raft key first, then
      the nisd key, then the client key; and the query that is asked next is that application's. */
  predicate Identifies(ep: Ep, e: Ep, keys: set<string>, env: Env) {
    var raft, nisd, client := "raft_root_entry" in keys, "nisd_root_entry" in keys, "nclient_root_entry" in keys;
    && (e.app == Pmdb <==> raft)
    && (e.app == Nisd <==> nisd && !raft)
    && (e.app == Nclient <==> client && !nisd && !raft)
    && if raft || nisd || client then
         && e.state == HasIdentity && e.lastSeen == env.now && e.pending.Keys == {env.id1}
         && e.pending[env.id1].op == (if raft then if env.wrote1 then SystemInfo else RaftInfo
                                      else if nisd then NISDInfo else NCLIENTInfo)
       else e == ep.(app := Unrecognized, pending := map[])
  }

  lemma IdentifyReply(r: Run, i: nat, u: Uuid, id: Uuid, keys: set<string>, typed: bool)
    requires Valid(r) && i < |r.steps| && Replies(r, i, u, id) && Pending(r.states[i].sys, u, id)
    requires r.states[i].sys.eps[u].pending[id].op == Identify && r.steps[i].env.out == File(Object(keys), typed)
    ensures u in r.states[i + 1].sys.eps
    ensures Identifies(r.states[i].sys.eps[u], r.states[i + 1].sys.eps[u], keys, r.steps[i].env)
  {
    ReplyAt(r, i, u, id);
    OwnFile(r, i, u, id);
    NamedByKeys(r.states[i].sys.lh, r.states[i].sys.eps[u], id, keys, typed, r.steps[i].env);
  }

  lemma OwnFile(r: Run, i: nat, u: Uuid, id: Uuid)
    requires Valid(r) && i < |r.states| && Pending(r.states[i].sys, u, id)
    requires r.states[i].sys.eps[u].pending[id].op != RaftInfo
    ensures var ep := r.states[i].sys.eps[u];
            ep.pending[id].id == id && (ep.pending[id].op == Identify ==> ep.state in {Init, Removing})
  {
    TornAt(r, i, u, id);
    PendingCommands(r, i, u);
  }

  lemma NamedByKeys(lh: Lh, ep: Ep, id: Uuid, keys: set<string>, typed: bool, env: Env)
    requires id in ep.pending && ep.pending[id].id == id && ep.pending[id].op == Identify
    requires env.out == File(Object(keys), typed) && AtMostOne(ep.pending) && ep.state in {Init, Removing}
    requires Complete(lh, ep, id, env).Ok?
    requires CompletionEffect(lh, ep, id, env, Complete(lh, ep, id, env).value)
    ensures Identifies(ep, Complete(lh, ep, id, env).value.ep, keys, env)
  {
    OnlyPending(ep, id);
  }

  /** A reply that is no JSON object names nothing. */
  lemma MalformedIdentifyReply(r: Run, i: nat, u: Uuid, id: Uuid, typed: bool)
    requires Valid(r) && i < |r.steps| && Replies(r, i, u, id) && Pending(r.states[i].sys, u, id)
    requires r.states[i].sys.eps[u].pending[id].op == Identify && r.steps[i].env.out == File(Malformed, typed)
    ensures u in r.states[i + 1].sys.eps
    ensures r.states[i + 1].sys.eps[u] == r.states[i].sys.eps[u].(app := Unrecognized, pending := map[])
  {
    ReplyAt(r, i, u, id);
    OwnFile(r, i, u, id);
    OnlyPending(r.states[i].sys.eps[u], id);
  }

  /** What an info reply does, by what its file holds; `torn` commands read another file, which is
      never taken for an info reply. */
  predicate Informs(ep: Ep, e: Ep, file: OutFile, torn: bool, now: int) {
    && e.pending == map[] && e.app == ep.app && e.lsofGen == ep.lsofGen
    && match file
       case Unreadable => e.state == ep.state && e.lastSeen == ep.lastSeen
       case File(_, typed) =>
         if typed && !torn then e.state == Running && e.lastSeen == now
         else if ep.state == Down then e.state == Running && e.lastSeen == now
         else e.state == ep.state && e.lastSeen == ep.lastSeen
  }

  lemma InfoReply(r: Run, i: nat, u: Uuid, id: Uuid)
    requires Valid(r) && i < |r.steps| && Replies(r, i, u, id) && Pending(r.states[i].sys, u, id)
    requires r.states[i].sys.eps[u].pending[id].op != Identify
    ensures u in r.states[i + 1].sys.eps
    ensures var torn := id in r.states[i].torn;
            Informs(r.states[i].sys.eps[u], r.states[i + 1].sys.eps[u],
                    if torn then r.steps[i].env.nilOut else r.steps[i].env.out, torn, r.steps[i].env.now)
  {
    ReplyAt(r, i, u, id);
    Reachable(r, i);
    PendingCommands(r, i, u);
  }

  // Cleaning

  /** How many scans have begun since u was last sighted. */
  function Missed(r: Run, i: nat, u: Uuid): nat
    requires i <= |r.steps| <= |r.states|
  {
    if i == 0 || Sights(r, i - 1, u) then 0
    else Missed(r, i - 1, u) + if r.steps[i - 1].act.ScanBegin? then 1 else 0
  }

  lemma {:induction false} MissedIs(r: Run, i: nat, u: Uuid)
    requires Valid(r) && i < |r.states| && u in r.states[i].sys.eps
    ensures r.states[i].sys.lh.gen == r.states[i].sys.eps[u].lsofGen + Missed(r, i, u)
  {
    if i > 0 {
      ScanNext(r, i - 1, u);
      if !Sights(r, i - 1, u) {
        MissedIs(r, i - 1, u);
      } else {
        assert !r.steps[i - 1].act.ScanBegin?;
      }
    }
  }

  /** Commands older than sixty seconds go, and no others. A running endpoint is down when silent for
      more than sixty seconds, and is never removed; any other is removed when at least two scans
      have begun since it was last sighted. */
  ghost predicate CleanedUp(ep: Ep, e: Ep, missed: nat, now: int) {
    && (forall k :: k in e.pending <==> k in ep.pending && now - ep.pending[k].start <= 60_000_000_000)
    && (forall k :: k in e.pending ==> e.pending[k] == ep.pending[k])
    && e.app == ep.app && e.lastSeen == ep.lastSeen && e.lsofGen == ep.lsofGen
    && e.state == match ep.state
                  case Running => if now - ep.lastSeen > 60_000_000_000 then Down else Running
                  case Removing => Removing
                  case _ => if missed >= 2 then Removing else ep.state
  }

  lemma CleaningDoes(r: Run, i: nat, u: Uuid)
    requires Valid(r) && i < |r.steps| && r.steps[i].act == CleanOne(u)
    ensures u in r.states[i].sys.eps && u in r.states[i + 1].sys.eps
    ensures CleanedUp(r.states[i].sys.eps[u], r.states[i + 1].sys.eps[u], Missed(r, i, u), r.steps[i].env.now)
  {
    StepAt(r, i);
    LocalAt(r, i, Target(u, Sweep));
    MissedIs(r, i, u);
    CleanValue(r.states[i].sys.lh, r.states[i].sys.eps[u], r.steps[i].env, Missed(r, i, u));
  }

  lemma CleanValue(lh: Lh, ep: Ep, env: Env, missed: nat)
    requires Local(lh, ep, env.now) && KernelFits(lh, ep, env.kernel) && lh.gen == ep.lsofGen + missed
    ensures Clean(lh, ep, env).Ok? && CleanedUp(ep, Clean(lh, ep, env).value.ep, missed, env.now)
  {
    SweepEffect(lh, ep, env);
  }

  // Polling

  /** An endpoint that is not being removed and has nothing pending is asked what its state and its
      application call for; a running one that was silent for more than sixty seconds is down. */
  predicate AskedUp(u: Uuid, ep: Ep, e: Ep, env: Env) {
    && e.app == ep.app && e.lastSeen == ep.lastSeen && e.lsofGen == ep.lsofGen
    && e.state == (if ep.state == Running && env.now - ep.lastSeen > 60_000_000_000 then Down else ep.state)
    && if ep.pending != map[] || ep.state == Removing then e.pending == ep.pending
       else
         e.pending.Keys == {env.id1} &&
         e.pending[env.id1] ==
         if ep.state == Init then
           Cmd(env.id1, u, "GET /.*" + "\nOUTFILE /lkoep_" + env.id1 + "\n", Identify, env.now)
         else
           match ep.app
           case Pmdb =>
             if env.wrote1 then
               Cmd(env.id1, u, "GET /system_info/.*" + "\nOUTFILE /lkoep_" + env.id1 + "\n", SystemInfo, env.now)
             else
               Cmd(NIL, u, "GET /raft_root_entry/.*/.*", RaftInfo, ZERO)
           case Nisd => Cmd(env.id1, u, "GET /.*/.*/.*" + "\nOUTFILE /lkoep_" + env.id1 + "\n", NISDInfo, env.now)
           case _ => Cmd(env.id1, u, "GET /.*/.*/.*" + "\nOUTFILE /lkoep_" + env.id1 + "\n", NCLIENTInfo, env.now)
  }

  lemma PollingDoes(r: Run, i: nat, u: Uuid)
    requires Valid(r) && i < |r.steps| && r.steps[i].act == PollOne(u)
    ensures u in r.states[i].sys.eps && u in r.states[i + 1].sys.eps
    ensures AskedUp(u, r.states[i].sys.eps[u], r.states[i + 1].sys.eps[u], r.steps[i].env)
  {
    StepAt(r, i);
    LocalAt(r, i, Target(u, Probe));
    PollValue(r.states[i].sys.lh, u, r.states[i].sys.eps[u], r.steps[i].env);
  }

  lemma PollValue(lh: Lh, u: Uuid, ep: Ep, env: Env)
    requires Local(lh, ep, env.now) && KernelFits(lh, ep, env.kernel) && ep.uuid == u
    ensures Poll(lh, ep, env).Ok? && AskedUp(u, ep, Poll(lh, ep, env).value.ep, env)
  {
    ProbeEffect(lh, ep, env);
  }

  // Commands

  /** In every reachable state a pending command asks, in full, for what its kind asks for. */
  lemma PendingText(r: Run, i: nat, u: Uuid, id: Uuid)
    requires Valid(r) && i < |r.states| && Pending(r.states[i].sys, u, id)
    ensures var c := r.states[i].sys.eps[u].pending[id];
            if id in r.states[i].torn then c.op == RaftInfo && c.text == "GET /raft_root_entry/.*/.*"
            else
              match c.op
              case Identify => c.text == "GET /.*" + "\nOUTFILE /lkoep_" + id + "\n"
              case SystemInfo => c.text == "GET /system_info/.*" + "\nOUTFILE /lkoep_" + id + "\n"
              case NISDInfo => c.text == "GET /.*/.*/.*" + "\nOUTFILE /lkoep_" + id + "\n"
              case NCLIENTInfo => c.text == "GET /.*/.*/.*" + "\nOUTFILE /lkoep_" + id + "\n"
              case _ => false
  {
    Reachable(r, i);
  }

  // Sightings

  /** A new endpoint is unrecognized and in Init, with nothing pending; a known one is only stamped,
      unless it was being removed: then it starts over in Init. */
  lemma SightingDoes(r: Run, i: nat, u: Uuid)
    requires Valid(r) && i < |r.steps| && Sights(r, i, u)
    ensures u in r.states[i + 1].sys.eps
    ensures var e, now := r.states[i + 1].sys.eps[u], r.steps[i].env.now;
            && e.lsofGen == r.states[i].sys.lh.gen
            && if u !in r.states[i].sys.eps then
                 e.app == Unrecognized && e.state == Init && e.pending == map[] && e.lastSeen == now
               else
                 var ep := r.states[i].sys.eps[u];
                 && e.app == ep.app && e.pending == ep.pending
                 && e.state == (if ep.state == Removing then Init else ep.state)
                 && e.lastSeen == if ep.state == Removing then now else ep.lastSeen
  {
    var s, st := r.states[i], r.steps[i];
    StepAt(r, i);
    TargetKept(s, st, Target(u, Sighting));
    if u in s.sys.eps {
      SightValue(s.sys.lh, s.sys.eps[u], st.env);
    } else {
      ChangeStateKeeps(s.sys.lh, NewEp(s.sys.lh, u), Init, st.env);
    }
  }

  lemma SightValue(lh: Lh, ep: Ep, env: Env)
    requires Local(lh, ep, env.now) && KernelFits(lh, ep, env.kernel)
    ensures Sight(lh, ep, env).Ok? ==>
              var e := Sight(lh, ep, env).value.ep;
              && e.app == ep.app && e.pending == ep.pending && e.lsofGen == lh.gen
              && e.state == (if ep.state == Removing then Init else ep.state)
              && e.lastSeen == if ep.state == Removing then env.now else ep.lastSeen
  {
    ChangeStateKeeps(lh, ep.(lsofGen := lh.gen), Init, env);
  }

  // Events

  /** What an event means: on the root watch a name that is a uuid sights that endpoint; on the watch
      of an endpoint not being removed, a name `lkoep_` followed by a uuid is a reply to it; and
      nothing else means anything. `parsed` is what `uuid.Parse` makes of the name, on the root
      watch, or of what follows the prefix. */
  lemma EventMeans(r: Run, i: nat, wd: int, name: string, parsed: Option<Uuid>, t: Target)
    requires Valid(r) && i < |r.states|
    ensures var sys := r.states[i].sys;
            Resolve(sys.lh, Event(wd, name, parsed)) == Some(t) <==>
            || (wd == sys.lh.rootWd && parsed == Some(t.u) && t.op == Sighting)
            || (&& t.u in sys.eps && sys.eps[t.u].state in {Init, HasIdentity, Running, Down}
                && sys.eps[t.u].wid == wd && "lkoep_" <= name && parsed.Some? && t.op == Reply(parsed.value))
  {
    WatchesAreInverse(r, i);
    var sys := r.states[i].sys;
    if "lkoep_" <= name {
      assert name[0] == 'l';
    }
    assert wd in sys.lh.wmap && sys.lh.wmap[wd] == t.u <==>
           t.u in sys.eps && sys.eps[t.u].watched && sys.eps[t.u].wid == wd;
  }

  /** An event that means nothing changes nothing: a root event whose name is no uuid, an event on a
      watch nobody has, a temporary file, a file of somebody else's, a name that does not parse. */
  lemma EventIgnored(r: Run, i: nat)
    requires Valid(r) && i < |r.steps| && r.steps[i].act.Event?
    requires Resolve(r.states[i].sys.lh, r.steps[i].act).None?
    ensures r.states[i + 1].sys == r.states[i].sys
  {
    StepAt(r, i);
  }

  /** The file a command is answered in lies in the directory that is watched for the answer. */
  lemma ReplyLandsWhereWatched(r: Run, i: nat, u: Uuid, id: Uuid)
    requires Valid(r) && i < |r.states| && Pending(r.states[i].sys, u, id) && id !in r.states[i].torn
    requires r.states[i].sys.eps[u].state != Removing
    ensures var s := r.states[i];
            var ep := s.sys.eps[u];
            && ep.wid in s.owner && s.owner[ep.wid] == s.sys.lh.ctl + "/" + u + "/output/"
            && OutFnam(s.sys.lh.ctl, ep.pending[id]) == s.owner[ep.wid] + "lkoep_" + id
  {
    WatchesAreInverse(r, i);
    Reachable(r, i);
    var s := r.states[i];
    assert s.sys.eps[u].wid in s.sys.lh.wmap && s.sys.lh.wmap[s.sys.eps[u].wid] == u;
  }

  // Scans

  /** What one sighting does to the stamps. */
  ghost predicate SightedIn(sys: Sys, u: Uuid, s: Sys) {
    && s.lh.gen == sys.lh.gen && u in s.eps && s.eps[u].lsofGen == sys.lh.gen
    && (forall v :: v in sys.eps && v != u ==> v in s.eps && s.eps[v] == sys.eps[v])
  }

  lemma SightingStamps(sys: Sys, u: Uuid, env: Env)
    requires OnEndpoint(sys, Target(u, Sighting), env).Ok?
    ensures SightedIn(sys, u, OnEndpoint(sys, Target(u, Sighting), env).value)
  {
  }

  predicate Stamped(s: Sys, gen: nat, found: seq<Uuid>) {
    s.lh.gen == gen && forall i :: 0 <= i < |found| ==> found[i] in s.eps && s.eps[found[i]].lsofGen == gen
  }

  lemma StampedNext(m: Sys, s: Sys, gen: nat, found: seq<Uuid>, n: nat)
    requires n < |found| && Stamped(m, gen, found[..n]) && SightedIn(m, found[n], s)
    ensures Stamped(s, gen, found[..n + 1])
  {
    forall i | 0 <= i < n + 1 ensures found[i] in s.eps && s.eps[found[i]].lsofGen == gen {
      if i < n {
        assert found[..n][i] == found[i];
      }
    }
  }

  lemma {:induction false} PrefixStamps(sys: Sys, found: seq<Uuid>, envs: seq<Env>, begin: Env, n: nat) returns (s: Sys)
    requires n <= |envs| == |found| && ApplyAll(sys, ScanPrefix(found, envs, begin, n)).Ok?
    ensures ApplyAll(sys, ScanPrefix(found, envs, begin, n)) == Ok(s)
    ensures Stamped(s, sys.lh.gen + 1, found[..n])
  {
    if n == 0 {
      ScanPrefixZero(sys, found, envs, begin);
      s := sys.(lh := sys.lh.(gen := sys.lh.gen + 1));
    } else {
      ScanPrefixNext(sys, found, envs, begin, n - 1);
      var m := PrefixStamps(sys, found, envs, begin, n - 1);
      SightingStamps(m, found[n - 1], envs[n - 1]);
      s := OnEndpoint(m, Target(found[n - 1], Sighting), envs[n - 1]).value;
      StampedNext(m, s, sys.lh.gen + 1, found, n - 1);
    }
  }

  /** A scan that does not stop the process moves the generation by one and stamps every endpoint it
      comes across with the new one. */
  lemma ScanDoes(sys: Sys, found: seq<Uuid>, envs: seq<Env>, begin: Env, end: Env)
    requires |envs| == |found| && ApplyAll(sys, ScanSteps(found, envs, begin, end)).Ok?
    ensures var s := ApplyAll(sys, ScanSteps(found, envs, begin, end)).value;
            && s.lh.gen == sys.lh.gen + 1
            && (forall u :: u in found ==> u in s.eps && s.eps[u].lsofGen == sys.lh.gen + 1)
    ensures var acts := ScanSteps(found, envs, begin, end);
            && |acts| == |found| + 2 && acts[0].act == ScanBegin && acts[|found| + 1].act == ScanEnd
            && (forall i :: 0 <= i < |found| ==> acts[i + 1].act == See(found[i]))
  {
    ScanWhole(sys, found, envs, begin, end, |found|);
    var s := PrefixStamps(sys, found, envs, begin, |found|);
    assert found[..|found|] == found;
  }

  // Watches, from any state at all

  /** When adding and removing a watch succeed, what they change, and which check fails otherwise, in
      the order the checks are made. */
  lemma WatchVerdicts(lh: Lh, ep: Ep, k: KernelReply)
    ensures EpWatchAdd(lh, ep, k) ==
            if lh.rootWd == -1 then Fatal(NotInitialised)
            else if ep.wid != -1 then Fatal(Busy)
            else match k
                 case KernelError => Halt
                 case Wd(w) =>
                   if w < 0 then Fatal(NegativeWid)
                   else if w in lh.wmap.Keys then Fatal(AlreadyExists)
                   else Ok(Pair(Lh(lh.ctl, lh.rootWd, lh.gen, lh.wmap[w := ep.uuid]), ep.(wid := w)))
    ensures EpWatchRemove(lh, ep).Ok? <==>
            lh.rootWd != -1 && ep.wid >= 0 && ep.wid in lh.wmap && lh.wmap[ep.wid] == ep.uuid
    ensures EpWatchRemove(lh, ep).Ok? ==>
              var p := EpWatchRemove(lh, ep).value;
              && p.ep == ep.(wid := -1) && p.lh == lh.(wmap := p.lh.wmap)
              && (forall w :: w in p.lh.wmap <==> w in lh.wmap && w != ep.wid)
              && (forall w :: w in p.lh.wmap ==> p.lh.wmap[w] == lh.wmap[w])
    ensures !EpWatchRemove(lh, ep).Ok? ==>
              EpWatchRemove(lh, ep) ==
              Fatal(if lh.rootWd == -1 then NotInitialised else if ep.wid < 0 then NotWatched
                    else if ep.wid !in lh.wmap then NotInMap else WrongEndpoint)
  {
  }

  /** The other checks: no endpoint is put into the wildcard state, none changes state while its watch
      flag is wrong, none is stamped backwards. */
  lemma OtherChecks(lh: Lh, ep: Ep, s: Epstate, env: Env)
    ensures ChangeState(lh, ep, Any, env) == Fatal(NotSettable)
    ensures s != Any && s != ep.state && (ep.watched <==> ep.state !in {Init, HasIdentity, Running, Down}) ==>
              ChangeState(lh, ep, s, env) == Fatal(InvalidWatch)
    ensures LsofGenUpdate(ep, lh.gen).Fatal? <==> ep.lsofGen > lh.gen
  {
  }
}
