/** What every operation keeps of the one endpoint it works on. */
module EndpointLemmas {
  import opened Lookout
  import opened EndpointSpec

  // The thresholds, in numbers

  /** Sixty seconds, in nanoseconds. */
  const MINUTE: int := 60_000_000_000

  predicate Silent(ep: Ep, now: int) {
    now - ep.lastSeen > MINUTE
  }

  predicate Overdue(c: Cmd, now: int) {
    now - c.start > MINUTE
  }

  /** At least two scans have begun since the endpoint was stamped. */
  predicate TwoScansOld(ep: Ep, gen: nat) {
    gen >= ep.lsofGen + 2
  }

  /** The watched flag, the watch descriptor and the handler's index agree with the state. */
  predicate Watching(lh: Lh, ep: Ep) {
    && lh.rootWd >= 0
    && -1 !in lh.wmap
    && (ep.watched <==> ep.state in {Init, HasIdentity, Running, Down})
    && (ep.watched <==> ep.wid >= 0)
    && (!ep.watched ==> ep.wid == -1)
    && (ep.watched ==> ep.wid in lh.wmap && lh.wmap[ep.wid] == ep.uuid)
  }

  predicate InfoOp(op: CmdOp) {
    op in {SystemInfo, NISDInfo, NCLIENTInfo}
  }

  /** The command kinds that can be pending, as issued, on an endpoint in its present state. */
  predicate OpFits(ep: Ep, op: CmdOp) {
    if op == Identify then ep.state in {Init, Removing}
    else ep.app != Unrecognized && op == InfoOf(ep.app)
  }

  predicate AtMostOne(m: map<Uuid, Cmd>) {
    forall a, b :: a in m && b in m ==> a == b
  }

  /** What each kind of command asks for. */
  function Request(op: CmdOp): string {
    match op
    case Identify => "GET /.*"
    case SystemInfo => "GET /system_info/.*"
    case RaftInfo => "GET /raft_root_entry/.*/.*"
    case NISDInfo => "GET /.*/.*/.*"
    case NCLIENTInfo => "GET /.*/.*/.*"
    case Custom => "GET /.*/.*/.*"
  }

  /** The whole text of a command: the request, and the file to answer in. */
  function FullText(op: CmdOp, id: Uuid): string {
    Request(op) + "\nOUTFILE /lkoep_" + id + "\n"
  }

  lemma TextIsFull(op: CmdOp, id: Uuid)
    ensures Request(op) + OutfileLine(id) == FullText(op, id)
  {
    assert "\nOUTFILE /" + LOOKOUT_PREFIX == "\nOUTFILE /lkoep_";
  }

  /** The command pending under k is the one issued under k. */
  predicate Intact(ep: Ep, k: Uuid, c: Cmd, now: int) {
    && c.id == k && c.ep == ep.uuid && c.start <= now && OpFits(ep, c.op)
    && c.text == FullText(c.op, k)
  }

  /** The command was overwritten in place by the retry that follows a failed write. */
  predicate Torn(ep: Ep, c: Cmd) {
    ep.app == Pmdb && c == Overwritten(ep)
  }

  predicate Commands(ep: Ep, now: int) {
    && AtMostOne(ep.pending)
    && forall k :: k in ep.pending ==> Intact(ep, k, ep.pending[k], now) || Torn(ep, ep.pending[k])
  }

  predicate Identified(ep: Ep) {
    ep.state in {HasIdentity, Running, Down} ==> Recognised(ep.app)
  }

  predicate Timed(ep: Ep, now: int) {
    && (ep.state != Unknown ==> ep.lastSeen <= now)
    && (ep.state == Down ==> Silent(ep, now))
  }

  /** The invariant of one stored endpoint. */
  predicate Local(lh: Lh, ep: Ep, now: int) {
    && ep.state != Unknown && ep.state != Any
    && Watching(lh, ep) && Commands(ep, now) && Identified(ep) && Timed(ep, now)
    && ep.lsofGen <= lh.gen
  }

  /** A descriptor handed out by the kernel is either this endpoint's own or in nobody's use. */
  predicate KernelFits(lh: Lh, ep: Ep, k: KernelReply) {
    k.Wd? ==> k.wd >= 0 && k.wd !in lh.wmap - {ep.wid}
  }

  /** The handler changed only in this endpoint's own index entry. */
  predicate Rewatched(lh: Lh, ep: Ep, k: KernelReply, p: Pair) {
    && p.ep.uuid == ep.uuid
    && p.lh.ctl == lh.ctl && p.lh.rootWd == lh.rootWd && p.lh.gen == lh.gen
    && p.lh.wmap == (if p.ep.watched then (lh.wmap - {ep.wid})[p.ep.wid := ep.uuid] else lh.wmap - {ep.wid})
    && (p.ep.watched ==> p.ep.wid == ep.wid || k == Wd(p.ep.wid))
  }

  /** The state changes one operation may make; `late` allows a completion that reaches an
      endpoint already moved to Removing. */
  predicate Edge(a: Epstate, b: Epstate, late: bool) {
    || a == b
    || (a == Init && b in {HasIdentity, Running, Removing})
    || (a == HasIdentity && b in {Running, Removing})
    || (a == Running && b == Down)
    || (a == Down && b in {Running, Removing})
    || (a == Removing && b == Init)
    || (late && a == Removing && b in {HasIdentity, Running})
  }

  /** A state change stays within the endpoint's own index entry and never dies; it needs the
      kernel only to start a watch, and stops the process exactly when that fails. */
  lemma ChangeStateKeeps(lh: Lh, ep: Ep, s: Epstate, env: Env)
    requires Watching(lh, ep) && KernelFits(lh, ep, env.kernel) && s != Any && s != Unknown
    ensures !ChangeState(lh, ep, s, env).Fatal?
    ensures ChangeState(lh, ep, s, env).Halt? <==>
            IsWatchedState(s) && !ep.watched && env.kernel.KernelError?
    ensures ChangeState(lh, ep, s, env).Ok? ==>
              var p := ChangeState(lh, ep, s, env).value;
              && Watching(p.lh, p.ep) && Rewatched(lh, ep, env.kernel, p)
              && p.ep == ep.(state := s, watched := p.ep.watched, wid := p.ep.wid, lastSeen := p.ep.lastSeen)
              && p.ep.lastSeen == if s != ep.state && s in {Init, Running, HasIdentity} then env.now else ep.lastSeen
  {
  }

  function Issued(ep: Ep, op: CmdOp, id: Uuid, now: int): map<Uuid, Cmd> {
    map[id := Cmd(id, ep.uuid, FullText(op, id), op, now)]
  }

  /** With nothing pending the command becomes the only pending one; otherwise it is refused
      without an error. */
  lemma SubmitKeeps(ep: Ep, text: string, op: CmdOp, id: Uuid, now: int, wrote: bool)
    requires Commands(ep, now) && OpFits(ep, op) && text == Request(op)
    ensures var s := Submit(ep, text, op, id, now, wrote);
            && Commands(s.ep, now)
            && s == if ep.pending == map[] then Submitted(ep.(pending := Issued(ep, op, id, now)), !wrote)
                    else Submitted(ep, false)
  {
    TextIsFull(op, id);
    if ep.pending != map[] {
      assert |ep.pending| != 0;
    }
  }

  /** The info command of each application. */
  function InfoOf(app: App): CmdOp
    requires app != Unrecognized
  {
    match app
    case Pmdb => SystemInfo
    case Nisd => NISDInfo
    case Nclient => NCLIENTInfo
  }

  /** One query command is pending: torn if the write failed on a PMDB endpoint, else the
      application's own query, in full, started now. */
  predicate Asked(u: Uuid, app: App, env: Env, m: map<Uuid, Cmd>) {
    app != Unrecognized &&
    m == if app == Pmdb && !env.wrote1 then
           map[env.id1 := Cmd(NIL, u, "GET /raft_root_entry/.*/.*", RaftInfo, ZERO)]
         else
           map[env.id1 := Cmd(env.id1, u, FullText(InfoOf(app), env.id1), InfoOf(app), env.now)]
  }

  /** Whatever happens to the input file, a query leaves exactly one command pending and reports
      no error; when the write fails on a PMDB endpoint that command is torn. */
  lemma QueryAppKeeps(ep: Ep, env: Env)
    requires Commands(ep, env.now) && Recognised(ep.app)
    ensures var q := QueryApp(ep, env);
            && Commands(q.ep, env.now)
            && q.ep == ep.(pending := q.ep.pending)
            && !q.failed
            && (if ep.pending == map[] then Asked(ep.uuid, ep.app, env, q.ep.pending) else q.ep == ep)
  {
    var op := DetectOp(ep.app, false);
    assert op == InfoOf(ep.app) && DetectText(ep.app, false) == Request(op);
    SubmitKeeps(ep, DetectText(ep.app, false), op, env.id1, env.now, env.wrote1);
    var first := Submit(ep, DetectText(ep.app, false), op, env.id1, env.now, env.wrote1);
    if first.failed && op == SystemInfo {
      var over := first.ep.(pending := map[env.id1 := Overwritten(ep)]);
      assert first.ep.pending[env.id1 := Overwritten(ep)] == over.pending;
      assert Torn(over, over.pending[env.id1]) && |over.pending| == 1;
    }
  }

  /** Never dies and halts only when the kernel refuses; local invariant kept, index touched only
      at the endpoint's own entry, only allowed edges. */
  predicate Kept(lh: Lh, ep: Ep, env: Env, late: bool, r: Outcome<Pair>) {
    && !r.Fatal?
    && (r.Halt? ==> env.kernel.KernelError?)
    && (r.Ok? ==>
          && Local(r.value.lh, r.value.ep, env.now)
          && Rewatched(lh, ep, env.kernel, r.value)
          && (ep.state != Unknown ==> Edge(ep.state, r.value.ep.state, late)))
  }

  lemma SightKeeps(lh: Lh, ep: Ep, env: Env)
    requires Local(lh, ep, env.now) && KernelFits(lh, ep, env.kernel)
    ensures Kept(lh, ep, env, false, Sight(lh, ep, env))
    ensures Sight(lh, ep, env).Ok? ==>
              var e := Sight(lh, ep, env).value.ep;
              && e.state == (if ep.state == Removing then Init else ep.state)
              && e.lsofGen == lh.gen && e.pending == ep.pending && e.app == ep.app
  {
    var ep1 := ep.(lsofGen := lh.gen);
    ChangeStateKeeps(lh, ep1, Init, env);
  }

  lemma NewKeeps(lh: Lh, u: Uuid, env: Env)
    requires lh.rootWd >= 0 && -1 !in lh.wmap && KernelFits(lh, NewEp(lh, u), env.kernel)
    ensures Kept(lh, NewEp(lh, u), env, false, ChangeState(lh, NewEp(lh, u), Init, env))
  {
    ChangeStateKeeps(lh, NewEp(lh, u), Init, env);
  }

  lemma FlushKeeps(ep: Ep, now: int)
    requires Commands(ep, now)
    ensures Commands(FlushStaleCmds(ep, now), now)
  {
  }

  lemma CommandsMove(ep: Ep, p: Ep, now: int)
    requires Commands(ep, now) && p.pending == ep.pending && p.uuid == ep.uuid && p.app == ep.app
    requires p.state == ep.state || p.state == Removing || ep.state == Running
    ensures Commands(p, now)
  {
  }

  lemma CleanKeeps(lh: Lh, ep: Ep, env: Env)
    requires Local(lh, ep, env.now) && KernelFits(lh, ep, env.kernel)
    ensures Kept(lh, ep, env, false, Clean(lh, ep, env))
  {
    var ep1 := FlushStaleCmds(ep, env.now);
    FlushKeeps(ep, env.now);
    var r := Clean(lh, ep, env);
    if ep1.state == Running && Silent(ep1, env.now) {
      ChangeStateKeeps(lh, ep1, Down, env);
      if r.Ok? { CommandsMove(ep1, r.value.ep, env.now); }
    } else if TwoScansOld(ep1, lh.gen) && ep1.state != Running {
      ChangeStateKeeps(lh, ep1, Removing, env);
      if r.Ok? { CommandsMove(ep1, r.value.ep, env.now); }
    }
  }

  lemma PollRunningKeeps(lh: Lh, ep: Ep, env: Env)
    requires Local(lh, ep, env.now) && KernelFits(lh, ep, env.kernel) && ep.state == Running
    ensures Kept(lh, ep, env, false, Poll(lh, ep, env))
    ensures Poll(lh, ep, env).Ok?
    ensures var e := Poll(lh, ep, env).value.ep;
            && e.pending == QueryApp(ep, env).ep.pending && e.lastSeen == ep.lastSeen
            && e.app == ep.app && e.lsofGen == ep.lsofGen
            && e.state == if Silent(ep, env.now) then Down else Running
  {
    QueryAppKeeps(ep, env);
    var ep1 := QueryApp(ep, env).ep;
    if Silent(ep1, env.now) {
      ChangeStateKeeps(lh, ep1, Down, env);
      CommandsMove(ep1, ChangeState(lh, ep1, Down, env).value.ep, env.now);
    }
  }

  lemma PollKeeps(lh: Lh, ep: Ep, env: Env)
    requires Local(lh, ep, env.now) && KernelFits(lh, ep, env.kernel)
    ensures Kept(lh, ep, env, false, Poll(lh, ep, env))
  {
    if ep.state == Running {
      PollRunningKeeps(lh, ep, env);
    } else if ep.state == Init {
      SubmitKeeps(ep, "GET /.*", Identify, env.id1, env.now, env.wrote1);
    } else if ep.state != Removing {
      QueryAppKeeps(ep, env);
    }
  }

  lemma UpdateKeeps(lh: Lh, ep: Ep, env: Env)
    requires Watching(lh, ep) && KernelFits(lh, ep, env.kernel) && ep.state != Unknown && ep.state != Any
    requires ep.pending == map[] && Recognised(ep.app) && ep.lsofGen <= lh.gen
    ensures !Update(lh, ep, env).Fatal?
    ensures Update(lh, ep, env).Halt? ==> env.kernel.KernelError?
    ensures Update(lh, ep, env).Ok? ==>
              var p := Update(lh, ep, env).value;
              && Local(p.lh, p.ep, env.now) && Rewatched(lh, ep, env.kernel, p)
              && p.ep.state == Running && p.ep.lastSeen == env.now
              && p.ep == ep.(state := Running, lastSeen := env.now, watched := p.ep.watched, wid := p.ep.wid)
  {
    ChangeStateKeeps(lh, ep.(lastSeen := env.now), Running, env);
  }

  /** The application a reply names, by the keys at its top level. */
  predicate Names(doc: Json, app: App) {
    && doc.Object?
    && match app
       case Pmdb => "raft_root_entry" in doc.keys
       case Nisd => "nisd_root_entry" in doc.keys && "raft_root_entry" !in doc.keys
       case Nclient =>
         && "nclient_root_entry" in doc.keys
         && "nisd_root_entry" !in doc.keys && "raft_root_entry" !in doc.keys
       case Unrecognized => false
  }

  predicate NamesSome(doc: Json) {
    Names(doc, Pmdb) || Names(doc, Nisd) || Names(doc, Nclient)
  }

  lemma DeterminedIff(doc: Json, app: App)
    ensures DetermineApp(doc) == Some(app) <==> Names(doc, app)
    ensures DetermineApp(doc).Some? <==> NamesSome(doc)
  {
  }

  /** An identify reply that names no application leaves the endpoint unrecognized; one that does
      makes it HasIdentity and asks its first query. */
  lemma CompleteIdentifyKeeps(lh: Lh, ep: Ep, doc: Json, env: Env)
    requires Watching(lh, ep) && KernelFits(lh, ep, env.kernel)
    requires ep.state in {Init, Removing} && Timed(ep, env.now)
    requires ep.pending == map[] && ep.lsofGen <= lh.gen
    ensures Kept(lh, ep, env, true, CompleteIdentify(lh, ep, doc, env))
    ensures ep.state != Removing ==> Kept(lh, ep, env, false, CompleteIdentify(lh, ep, doc, env))
    ensures CompleteIdentify(lh, ep, doc, env).Ok? ==>
              var p := CompleteIdentify(lh, ep, doc, env).value;
              if !NamesSome(doc) then p == Pair(lh, ep.(app := Unrecognized))
              else
                && p.ep.state == HasIdentity && Names(doc, p.ep.app) && Asked(ep.uuid, p.ep.app, env, p.ep.pending)
                && p.ep.lsofGen == ep.lsofGen && p.ep.lastSeen == env.now
  {
    forall app ensures DetermineApp(doc) == Some(app) <==> Names(doc, app) {
      DeterminedIff(doc, app);
    }
    DeterminedIff(doc, Pmdb);
    match DetermineApp(doc)
    case None =>
    case Some(app) =>
      ChangeStateKeeps(lh, ep.(app := app), HasIdentity, env);
      var r := ChangeState(lh, ep.(app := app), HasIdentity, env);
      if r.Ok? {
        QueryAppKeeps(r.value.ep, env);
      }
  }

  /** The reply answers the command: it names an application, or it is a decoded info reply. */
  predicate Answers(c: Cmd, file: OutFile) {
    file.File? && if c.op == Identify then NamesSome(file.doc) else InfoOp(c.op) && file.typed
  }

  /** The state a completion of c leaves: any readable reply brings Down back to Running. */
  function AnsweredState(was: Epstate, c: Cmd, file: OutFile): Epstate {
    if Answers(c, file) then if c.op == Identify then HasIdentity else Running
    else if file.File? && was == Down then Running
    else was
  }

  /** What a completion does: an id that is not pending here is ENOENT and changes nothing; a
      pending id, never of a custom command, is consumed whatever the reply; the state afterwards
      is exactly that of the reply; an identify reply that names an application leaves its query
      pending, every other completion leaves nothing pending. */
  predicate CompletionEffect(lh: Lh, ep: Ep, id: Uuid, env: Env, c: Completed) {
    && c.ep.lsofGen == ep.lsofGen && c.ep.lastSeen >= ep.lastSeen
    && (ep.state != Running && c.ep.state == Running ==> c.ep.lastSeen == env.now)
    && if id !in ep.pending then c == Completed(lh, ep, NoEntry)
       else
         var cmd, file := ep.pending[id], ReplyFile(ep.pending[id], id, env);
         && cmd.op != Custom
         && c.err == (if file.Unreadable? then LoadError
                      else if InfoOp(cmd.op) && !file.typed then ParseError
                      else NoError)
         && c.ep.state == AnsweredState(ep.state, cmd, file)
         && (file.Unreadable? ==> c.ep == ep.(pending := map[]) && c.lh == lh)
         && (if cmd.op == Identify && Answers(cmd, file) then
               Names(file.doc, c.ep.app) && Asked(ep.uuid, c.ep.app, env, c.ep.pending)
             else c.ep.pending == map[])
         && (InfoOp(cmd.op) && Answers(cmd, file) ==> c.ep.lastSeen == env.now)
  }

  ghost predicate CompleteGood(lh: Lh, ep: Ep, id: Uuid, env: Env) {
    && Kept(lh, ep, env, ep.state == Removing, CompletePair(lh, ep, id, env))
    && (Complete(lh, ep, id, env).Ok? ==> CompletionEffect(lh, ep, id, env, Complete(lh, ep, id, env).value))
  }

  lemma OnlyPending(ep: Ep, id: Uuid)
    requires AtMostOne(ep.pending) && id in ep.pending
    ensures ep.pending - {id} == map[]
  {
    assert forall k :: k in ep.pending ==> k == id;
  }

  lemma CompleteInfoKeeps(lh: Lh, ep: Ep, id: Uuid, env: Env)
    requires Local(lh, ep, env.now) && KernelFits(lh, ep, env.kernel) && env.id1 !in ep.pending
    requires id in ep.pending && InfoOp(ep.pending[id].op) && ReplyFile(ep.pending[id], id, env).File?
    ensures CompleteGood(lh, ep, id, env)
  {
    OnlyPending(ep, id);
    var ep1 := ep.(pending := map[]);
    if ep.state == Down {
      ChangeStateKeeps(lh, ep1, Running, env);
      var p := ChangeState(lh, ep1, Running, env).value;
      UpdateKeeps(p.lh, p.ep, env);
    } else {
      UpdateKeeps(lh, ep1, env);
    }
  }

  lemma CompleteIdentificationKeeps(lh: Lh, ep: Ep, id: Uuid, env: Env)
    requires Local(lh, ep, env.now) && KernelFits(lh, ep, env.kernel) && env.id1 !in ep.pending
    requires id in ep.pending && ep.pending[id].op == Identify && ReplyFile(ep.pending[id], id, env).File?
    ensures CompleteGood(lh, ep, id, env)
  {
    OnlyPending(ep, id);
    CompleteIdentifyKeeps(lh, ep.(pending := map[]), ReplyFile(ep.pending[id], id, env).doc, env);
  }

  /** A torn command, answered through the file named after the nil uuid, takes the branch that
      does nothing. */
  lemma CompleteTornKeeps(lh: Lh, ep: Ep, id: Uuid, env: Env)
    requires Local(lh, ep, env.now) && KernelFits(lh, ep, env.kernel) && env.id1 !in ep.pending
    requires id in ep.pending && ep.pending[id].op == RaftInfo && ReplyFile(ep.pending[id], id, env).File?
    ensures CompleteGood(lh, ep, id, env)
  {
    OnlyPending(ep, id);
    if ep.state == Down {
      ChangeStateKeeps(lh, ep.(pending := map[]), Running, env);
    }
  }

  /** The branch that would write through the missing output pointer is never taken, and the one
      for raft queries only by a torn command. */
  lemma CompleteKeeps(lh: Lh, ep: Ep, id: Uuid, env: Env)
    requires Local(lh, ep, env.now) && KernelFits(lh, ep, env.kernel) && env.id1 !in ep.pending
    ensures CompleteGood(lh, ep, id, env)
  {
    if id in ep.pending {
      if ReplyFile(ep.pending[id], id, env).Unreadable? {
        OnlyPending(ep, id);
      } else if ep.pending[id].op == Identify {
        CompleteIdentificationKeeps(lh, ep, id, env);
      } else if ep.pending[id].op == RaftInfo {
        CompleteTornKeeps(lh, ep, id, env);
      } else {
        CompleteInfoKeeps(lh, ep, id, env);
      }
    }
  }
}
