/** The values the monitor works on: endpoints, their commands, and what the outside world answers. */
module Lookout {

  predicate HexDigit(c: char) {
    '0' <= c <= '9' || 'a' <= c <= 'f'
  }

  /** The places of the dashes. */
  predicate DashAt(i: nat) {
    i == 8 || i == 13 || i == 18 || i == 23
  }

  /** The canonical text: lower-case hexadecimal digits in groups of 8, 4, 4, 4 and 12. */
  predicate UuidText(s: string) {
    |s| == 36 && forall i :: 0 <= i < |s| ==> if DashAt(i) then s[i] == '-' else HexDigit(s[i])
  }

  /** A uuid, written as its canonical text. */
  type Uuid = s: string | UuidText(s) witness "00000000-0000-0000-0000-000000000000"

  /** `uuid.Nil`. */
  const NIL: Uuid := "00000000-0000-0000-0000-000000000000"

  /** Nanoseconds since the zero time. `time.Since(t) > 60s` is `now - t > TIMEOUT`. */
  const TIMEOUT: int := 60 * 1_000_000_000

  /** `time.Time{}`. */
  const ZERO: int := 0

  const LOOKOUT_PREFIX := "lkoep_"
  const OUTPUT := "/output/"

  datatype Epstate = Unknown | Init | HasIdentity | Running | Down | Removing | Any

  datatype App = Unrecognized | Pmdb | Nisd | Nclient

  datatype CmdOp = Identify | RaftInfo | SystemInfo | NISDInfo | NCLIENTInfo | Custom

  /** An issued command; `ep` is the uuid of the endpoint it was issued for. */
  datatype Cmd = Cmd(id: Uuid, ep: Uuid, text: string, op: CmdOp, start: int)

  datatype Ep = Ep(
    uuid: Uuid,
    app: App,
    state: Epstate,
    lastSeen: int,
    pending: map<Uuid, Cmd>,
    lsofGen: nat,
    watched: bool,
    wid: int)

  /** The part of the lookout handler an endpoint can reach. */
  datatype Lh = Lh(ctl: string, rootWd: int, gen: nat, wmap: map<int, Uuid>)

  /** What `InotifyAddWatch` answers. */
  datatype KernelReply = KernelError | Wd(wd: int)

  /** The top level of a JSON document, as far as `DetermineApp` looks at it. */
  datatype Json = Malformed | Object(keys: set<string>)

  /** A reply file: unreadable (missing, too large, read error), or a document that also
      may or may not decode into the typed control-interface structure. */
  datatype OutFile = Unreadable | File(doc: Json, typed: bool)

  /** Everything one step learns from outside: the clock, fresh uuids for the commands it may
      issue, whether writing their input files works, the kernel's answer, the reply file named
      after the completed id, and the reply file named after the nil uuid. */
  datatype Env = Env(
    now: int,
    id1: Uuid,
    id2: Uuid,
    wrote1: bool,
    wrote2: bool,
    kernel: KernelReply,
    out: OutFile,
    nilOut: OutFile)

  datatype FatalReason =
    | NotSettable | InvalidWatch | NotInitialised | Busy | NegativeWid | AlreadyExists
    | NotWatched | NotInMap | WrongEndpoint | GenAhead | NilOutput

  /** A step finishes, dies on one of its own consistency checks, or halts the process because
      the kernel refused a watch. */
  datatype Outcome<+T> = Ok(value: T) | Fatal(reason: FatalReason) | Halt {
    predicate IsFailure() {
      !Ok?
    }

    function PropagateFailure<U>(): Outcome<U>
      requires !Ok?
    {
      if Halt? then Halt else Fatal(reason)
    }

    function Extract(): T
      requires Ok?
    {
      value
    }
  }

  datatype Option<+T> = None | Some(value: T)

  /** What `Complete` returns. */
  datatype Errno = NoError | NoEntry | LoadError | ParseError

  /** The path of an endpoint's reply directory. */
  function Xpath(ctl: string, u: Uuid): string {
    ctl + "/" + u + OUTPUT
  }

  lemma XpathInjective(ctl: string, u: Uuid, v: Uuid)
    ensures Xpath(ctl, u) == Xpath(ctl, v) ==> u == v
    ensures Xpath(ctl, u) != ctl
  {
    var n := |ctl| + 1;
    assert Xpath(ctl, u)[n..n + 36] == u;
    assert Xpath(ctl, v)[n..n + 36] == v;
    assert |Xpath(ctl, u)| > |ctl|;
  }
}
