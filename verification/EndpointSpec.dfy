/** What each monitor operation computes, as functions on values. The classes in Objects.dfy
    are proved to compute these; the theorems in Runs.dfy and beyond are about these. */
module EndpointSpec {
  import opened Lookout

  datatype Pair = Pair(lh: Lh, ep: Ep)

  datatype Submitted = Submitted(ep: Ep, failed: bool)

  datatype Completed = Completed(lh: Lh, ep: Ep, err: Errno)

  // Applications

  predicate Recognised(app: App) {
    app != Unrecognized
  }

  /** The command kind an application asks to be queried with; `retry` is the fallback form. */
  function DetectOp(app: App, retry: bool): CmdOp {
    match app
    case Unrecognized => Custom
    case Pmdb => if retry then RaftInfo else SystemInfo
    case Nisd => NISDInfo
    case Nclient => NCLIENTInfo
  }

  function DetectText(app: App, retry: bool): string {
    match app
    case Pmdb => if retry then "GET /raft_root_entry/.*/.*" else "GET /system_info/.*"
    case _ => "GET /.*/.*/.*"
  }

  /** The application an identify reply names; None is the error return, which leaves the
      endpoint with the unrecognized application. */
  function DetermineApp(doc: Json): Option<App> {
    if doc.Malformed? then None
    else if "raft_root_entry" in doc.keys then Some(Pmdb)
    else if "nisd_root_entry" in doc.keys then Some(Nisd)
    else if "nclient_root_entry" in doc.keys then Some(Nclient)
    else None
  }

  // Watches

  predicate IsWatchedState(s: Epstate) {
    s != Removing && s != Unknown && s != Any
  }

  function EpWatchAdd(lh: Lh, ep: Ep, k: KernelReply): Outcome<Pair> {
    if lh.rootWd == -1 then Fatal(NotInitialised)
    else if ep.wid != -1 then Fatal(Busy)
    else if k.KernelError? then Halt
    else if k.wd < 0 then Fatal(NegativeWid)
    else if k.wd in lh.wmap then Fatal(AlreadyExists)
    else Ok(Pair(lh.(wmap := lh.wmap[k.wd := ep.uuid]), ep.(wid := k.wd)))
  }

  function EpWatchRemove(lh: Lh, ep: Ep): Outcome<Pair> {
    if lh.rootWd == -1 then Fatal(NotInitialised)
    else if ep.wid < 0 then Fatal(NotWatched)
    else if ep.wid !in lh.wmap then Fatal(NotInMap)
    else if lh.wmap[ep.wid] != ep.uuid then Fatal(WrongEndpoint)
    else Ok(Pair(lh.(wmap := lh.wmap - {ep.wid}), ep.(wid := -1)))
  }

  function WatchCtl(lh: Lh, ep: Ep, s: Epstate, k: KernelReply): Outcome<Pair> {
    var iws := IsWatchedState(s);
    if iws == ep.watched then Ok(Pair(lh, ep))
    else
      var p :- if iws then EpWatchAdd(lh, ep, k) else EpWatchRemove(lh, ep);
      Ok(Pair(p.lh, p.ep.(watched := iws)))
  }

  function ChangeState(lh: Lh, ep: Ep, s: Epstate, env: Env): Outcome<Pair> {
    if s == Any then Fatal(NotSettable)
    else if s == ep.state then Ok(Pair(lh, ep))
    else if ep.watched != IsWatchedState(ep.state) then Fatal(InvalidWatch)
    else
      var p :- WatchCtl(lh, ep, s, env.kernel);
      var seen := if s in {Init, Running, HasIdentity} then env.now else p.ep.lastSeen;
      Ok(Pair(p.lh, p.ep.(state := s, lastSeen := seen)))
  }

  // Staleness

  function LsofGenUpdate(ep: Ep, gen: nat): Outcome<Ep> {
    if ep.lsofGen > gen then Fatal(GenAhead) else Ok(ep.(lsofGen := gen))
  }

  predicate LsofGenIsStale(ep: Ep, gen: nat) {
    ep.lsofGen + 1 < gen
  }

  predicate LastSeenIsStale(ep: Ep, now: int) {
    now - ep.lastSeen > TIMEOUT
  }

  predicate CmdIsStale(c: Cmd, now: int) {
    now - c.start > TIMEOUT
  }

  // Commands

  /** The line that tells the application which file to answer in. */
  function OutfileLine(id: Uuid): string {
    "\nOUTFILE /" + LOOKOUT_PREFIX + id + "\n"
  }

  function Issue(ep: Ep, text: string, op: CmdOp, id: Uuid, now: int): Ep {
    var c := Cmd(id, ep.uuid, text + OutfileLine(id), op, now);
    if id in ep.pending then ep else ep.(pending := ep.pending[id := c])
  }

  function Submit(ep: Ep, text: string, op: CmdOp, id: Uuid, now: int, wrote: bool): Submitted {
    if |ep.pending| != 0 then Submitted(ep, false)
    else Submitted(Issue(ep, text, op, id, now), !wrote)
  }

  /** What the retry leaves in the variable it reuses: no id, no start, no OUTFILE line. */
  function Overwritten(ep: Ep): Cmd {
    Cmd(NIL, ep.uuid, DetectText(ep.app, true), DetectOp(ep.app, true), ZERO)
  }

  /** The retry is assigned to the variable whose address is already in the pending map: it
      overwrites the pending command, and is then refused because a command is pending. */
  function QueryApp(ep: Ep, env: Env): Submitted {
    var op := DetectOp(ep.app, false);
    var first := Submit(ep, DetectText(ep.app, false), op, env.id1, env.now, env.wrote1);
    if first.failed && op == SystemInfo then
      var over := first.ep.(pending := first.ep.pending[env.id1 := Overwritten(ep)]);
      Submit(over, DetectText(ep.app, true), DetectOp(ep.app, true), env.id2, env.now, env.wrote2)
    else
      Submitted(first.ep, false)
  }

  function FlushStaleCmds(ep: Ep, now: int): Ep {
    ep.(pending := map id | id in ep.pending && !CmdIsStale(ep.pending[id], now) :: ep.pending[id])
  }

  // Operations on one endpoint

  function Update(lh: Lh, ep: Ep, env: Env): Outcome<Pair> {
    var ep1 := ep.(lastSeen := env.now);
    if ep1.state != Running then ChangeState(lh, ep1, Running, env) else Ok(Pair(lh, ep1))
  }

  function CompleteIdentify(lh: Lh, ep: Ep, doc: Json, env: Env): Outcome<Pair> {
    match DetermineApp(doc)
    case None => Ok(Pair(lh, ep.(app := Unrecognized)))
    case Some(app) =>
      var p :- ChangeState(lh, ep.(app := app), HasIdentity, env);
      Ok(Pair(p.lh, QueryApp(p.ep, env).ep))
  }

  /** Where the reply to a command is looked for. */
  function OutFnam(ctl: string, c: Cmd): string {
    Xpath(ctl, c.ep) + LOOKOUT_PREFIX + c.id
  }

  /** The file is named after the id the command carries, whatever id it is pending under. */
  function ReplyFile(c: Cmd, id: Uuid, env: Env): OutFile {
    if c.id == id then env.out else env.nilOut
  }

  /** A completion whose reply has been read. */
  function Answer(lh: Lh, ep: Ep, op: CmdOp, doc: Json, typed: bool, env: Env): Outcome<Completed> {
    var p :- if ep.state == Down then ChangeState(lh, ep, Running, env) else Ok(Pair(lh, ep));
    match op
    case SystemInfo | NISDInfo | NCLIENTInfo =>
      if !typed then Ok(Completed(p.lh, p.ep, ParseError))
      else
        var q :- Update(p.lh, p.ep, env);
        Ok(Completed(q.lh, q.ep, NoError))
    case Custom => Fatal(NilOutput)
    case Identify =>
      var q :- CompleteIdentify(p.lh, p.ep, doc, env);
      Ok(Completed(q.lh, q.ep, NoError))
    case RaftInfo => Ok(Completed(p.lh, p.ep, NoError))
  }

  function Complete(lh: Lh, ep: Ep, id: Uuid, env: Env): Outcome<Completed> {
    if id !in ep.pending then Ok(Completed(lh, ep, NoEntry))
    else
      var ep1 := ep.(pending := ep.pending - {id});
      match ReplyFile(ep.pending[id], id, env)
      case Unreadable => Ok(Completed(lh, ep1, LoadError))
      case File(doc, typed) => Answer(lh, ep1, ep.pending[id].op, doc, typed, env)
  }

  /** The pair a completion leaves behind, without its error code. */
  function CompletePair(lh: Lh, ep: Ep, id: Uuid, env: Env): Outcome<Pair> {
    var c :- Complete(lh, ep, id, env);
    Ok(Pair(c.lh, c.ep))
  }

  /** One iteration of `CleanEPs`. */
  function Clean(lh: Lh, ep: Ep, env: Env): Outcome<Pair> {
    var ep1 := FlushStaleCmds(ep, env.now);
    if ep1.state == Running && LastSeenIsStale(ep1, env.now) then ChangeState(lh, ep1, Down, env)
    else if LsofGenIsStale(ep1, lh.gen) && ep1.state != Running then ChangeState(lh, ep1, Removing, env)
    else Ok(Pair(lh, ep1))
  }

  /** One iteration of `PollEPs`. */
  function Poll(lh: Lh, ep: Ep, env: Env): Outcome<Pair> {
    match ep.state
    case Init =>
      Ok(Pair(lh, Submit(ep, "GET /.*", Identify, env.id1, env.now, env.wrote1).ep))
    case HasIdentity => Ok(Pair(lh, QueryApp(ep, env).ep))
    case Running =>
      var ep1 := QueryApp(ep, env).ep;
      if LastSeenIsStale(ep1, env.now) then ChangeState(lh, ep1, Down, env) else Ok(Pair(lh, ep1))
    case Down =>
      Ok(Pair(lh, if LastSeenIsStale(ep, env.now) then QueryApp(ep, env).ep else ep))
    case _ => Ok(Pair(lh, ep))
  }

  function NewEp(lh: Lh, u: Uuid): Ep {
    Ep(u, Unrecognized, Unknown, 0, map[], lh.gen, false, -1)
  }

  /** `AddEp` on an endpoint that is already known. */
  function Sight(lh: Lh, ep: Ep, env: Env): Outcome<Pair> {
    var ep1 :- LsofGenUpdate(ep, lh.gen);
    if ep1.state in {Removing, Unknown} then ChangeState(lh, ep1, Init, env) else Ok(Pair(lh, ep1))
  }
}
