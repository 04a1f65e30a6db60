/** From the bytes the kernel writes to the command they complete: the inotify decoder and the
    event dispatch together. */
module Delivery {
  import opened Lookout
  import opened EndpointSpec
  import opened EndpointLemmas
  import opened System
  import opened Runs
  import Inotify

  function Text(bytes: seq<Inotify.Byte>): string {
    seq(|bytes|, i requires 0 <= i < |bytes| => bytes[i] as char)
  }

  predicate Ascii(s: string) {
    forall i :: 0 <= i < |s| ==> s[i] < 128 as char
  }

  function Bytes(s: string): seq<Inotify.Byte> {
    seq(|s|, i requires 0 <= i < |s| => s[i] as int % 256)
  }

  lemma TextRoundTrip(s: string)
    requires Ascii(s)
    ensures Text(Bytes(s)) == s
  {
  }

  /** `uuid.Parse` is a library; all that is asked of it is that it reads canonical texts. */
  ghost predicate ReadsUuids(parse: string -> Option<Uuid>) {
    forall u: Uuid :: parse(u) == Some(u)
  }

  /** The step a decoded event causes: which part of its name is parsed depends on its watch. */
  function ActionOf(rootWd: int, parse: string -> Option<Uuid>, e: Inotify.Event): Action {
    var name := Text(e.name);
    Event(e.wd, name,
          if e.wd == rootWd then parse(name)
          else if LOOKOUT_PREFIX <= name then parse(name[|LOOKOUT_PREFIX|..])
          else None)
  }

  function ReplyName(id: Uuid): string {
    "lkoep_" + id
  }

  lemma UuidIsAscii(u: Uuid)
    ensures Ascii(u) && Ascii(ReplyName(u))
  {
  }

  lemma {:induction false} EventsAt(rs: seq<Inotify.Record>, k: nat)
    requires k < |rs|
    ensures |Inotify.EventsOf(rs)| == |rs| && Inotify.EventsOf(rs)[k] == Inotify.EventOf(rs[k])
    decreases |rs|
  {
    if |rs| > 1 {
      EventsAt(rs[1..], if k > 0 then k - 1 else 0);
    }
  }

  /** The events decoded from a read, as the steps they cause. */
  function Actions(buf: seq<Inotify.Byte>, n: nat, rootWd: int, parse: string -> Option<Uuid>): seq<Action>
    requires |buf| + Inotify.HEADER < Inotify.U32 && n <= |buf|
  {
    var events := Inotify.Decode(buf, n, 0).events;
    seq(|events|, i requires 0 <= i < |events| => ActionOf(rootWd, parse, events[i]))
  }

  lemma {:induction false} ActionAt(rs: seq<Inotify.Record>, rest: seq<Inotify.Byte>, rootWd: int,
                                    parse: string -> Option<Uuid>, k: nat)
    requires Inotify.AllWellFormed(rs) && k < |rs|
    requires |Inotify.SerialiseAll(rs) + rest| + Inotify.HEADER < Inotify.U32
    ensures var steps := Actions(Inotify.SerialiseAll(rs) + rest, |Inotify.SerialiseAll(rs)|, rootWd, parse);
            |steps| == |rs| && steps[k] == ActionOf(rootWd, parse, Inotify.EventOf(rs[k]))
  {
    Inotify.DecodeRoundTrip(rs, rest);
    EventsAt(rs, k);
  }

  /** Wherever it stands in a read, the record that reports a pending command's reply file on its
      endpoint's watch is the completion of that command. */
  lemma {:induction false} ReplyIsDelivered(r: Run, i: nat, u: Uuid, id: Uuid, rs: seq<Inotify.Record>,
                                            rest: seq<Inotify.Byte>, parse: string -> Option<Uuid>, k: nat)
    requires Valid(r) && i < |r.states| && Pending(r.states[i].sys, u, id) && r.states[i].sys.eps[u].watched
    requires ReadsUuids(parse) && Inotify.AllWellFormed(rs) && k < |rs|
    requires |Inotify.SerialiseAll(rs) + rest| + Inotify.HEADER < Inotify.U32
    requires rs[k].name == Bytes(ReplyName(id)) && rs[k].wd == r.states[i].sys.eps[u].wid
    ensures var lh := r.states[i].sys.lh;
            var steps := Actions(Inotify.SerialiseAll(rs) + rest, |Inotify.SerialiseAll(rs)|, lh.rootWd, parse);
            |steps| == |rs| && Resolve(lh, steps[k]) == Some(Target(u, Reply(id)))
  {
    WatchesAreInverse(r, i);
    ReplyFindsItsCommand(r, i, u, id, rs[k].wd);
    NamesTheReply(rs, rest, r.states[i].sys.lh.rootWd, parse, k, id);
  }

  /** Likewise the record that reports a new directory named by a uuid is its sighting. */
  lemma {:induction false} CreationIsDelivered(lh: Lh, u: Uuid, rs: seq<Inotify.Record>, rest: seq<Inotify.Byte>,
                                               parse: string -> Option<Uuid>, k: nat)
    requires ReadsUuids(parse) && Inotify.AllWellFormed(rs) && k < |rs|
    requires |Inotify.SerialiseAll(rs) + rest| + Inotify.HEADER < Inotify.U32
    requires rs[k].name == Bytes(u) && rs[k].wd == lh.rootWd
    ensures var steps := Actions(Inotify.SerialiseAll(rs) + rest, |Inotify.SerialiseAll(rs)|, lh.rootWd, parse);
            |steps| == |rs| && Resolve(lh, steps[k]) == Some(Target(u, Sighting))
  {
    ActionAt(rs, rest, lh.rootWd, parse, k);
    UuidIsAscii(u);
    TextRoundTrip(u);
  }

  // A whole read

  /** The steps from i on handle these events, one after the other. */
  predicate Handles(r: Run, i: nat, actions: seq<Action>) {
    && i + |actions| <= |r.steps|
    && forall j :: 0 <= j < |actions| ==> r.steps[i + j].act == actions[j]
  }

  /** The command is pending on u, whose watch is wid. */
  predicate Awaited(s: State, u: Uuid, id: Uuid, wid: int) {
    Pending(s.sys, u, id) && s.sys.eps[u].watched && s.sys.eps[u].wid == wid
  }

  lemma CompletionConsumes(r: Run, m: nat, u: Uuid, id: Uuid)
    requires Valid(r) && m < |r.steps| && Pending(r.states[m].sys, u, id)
    requires Resolve(r.states[m].sys.lh, r.steps[m].act) == Some(Target(u, Reply(id)))
    ensures id in r.states[m + 1].consumed
  {
    CompletesFrom(r, m, id);
  }

  /** An event leaves an awaited command awaited, or completes it. */
  lemma EventKeeps(r: Run, m: nat, u: Uuid, id: Uuid, wid: int)
    requires Valid(r) && m < |r.steps| && r.steps[m].act.Event? && Awaited(r.states[m], u, id, wid)
    ensures Awaited(r.states[m + 1], u, id, wid) || id in r.states[m + 1].consumed
  {
    if Concerns(r, m, u) {
      var t := Resolve(r.states[m].sys.lh, r.steps[m].act).value;
      if t.op == Reply(id) {
        CompletionConsumes(r, m, u, id);
      } else {
        LocalAt(r, m, t);
        EventLeaves(r.states[m].sys, t, r.steps[m].env, id);
      }
    } else {
      OthersAt(r, m, u);
    }
  }

  lemma EventLeaves(sys: Sys, t: Target, env: Env, id: Uuid)
    requires t.u in sys.eps && Local(sys.lh, sys.eps[t.u], env.now) && Pending(sys, t.u, id)
    requires t.op.Sighting? || (t.op.Reply? && t.op.id != id)
    requires sys.eps[t.u].watched
    ensures EpStep(sys, t, env).Ok?
    ensures EpStep(sys, t, env).value.ep == sys.eps[t.u].(lsofGen := EpStep(sys, t, env).value.ep.lsofGen)
  {
    assert t.op.Reply? ==> t.op.id !in sys.eps[t.u].pending;
  }

  lemma {:induction false} AwaitedUntil(r: Run, i: nat, n: nat, u: Uuid, id: Uuid, wid: int)
    requires Valid(r) && i + n < |r.states| && Awaited(r.states[i], u, id, wid)
    requires forall j :: i <= j < i + n ==> r.steps[j].act.Event?
    ensures Awaited(r.states[i + n], u, id, wid) || id in r.states[i + n].consumed
    decreases n
  {
    if n > 0 {
      AwaitedUntil(r, i, n - 1, u, id, wid);
      if id in r.states[i + n - 1].consumed {
        HistoryNext(r, i + n - 1);
      } else {
        EventKeeps(r, i + n - 1, u, id, wid);
      }
    }
  }

  lemma ActionsAreEvents(buf: seq<Inotify.Byte>, n: nat, rootWd: int, parse: string -> Option<Uuid>)
    requires |buf| + Inotify.HEADER < Inotify.U32 && n <= |buf|
    ensures forall a :: a in Actions(buf, n, rootWd, parse) ==> a.Event?
  {
  }

  /** Applying the n steps from i on one after the other leads where the run is then, and by then
      the command is completed. */
  predicate AllHandled(r: Run, i: nat, n: nat, id: Uuid) {
    && i + n <= |r.steps| < |r.states|
    && ApplyAll(r.states[i].sys, r.steps[i..i + n]) == Ok(r.states[i + n].sys)
    && id in r.states[i + n].consumed
  }

  /** When a run handles the events of one read in order, it arrives where applying them one after
      the other leads, and a command that was awaited before the read, and whose reply file one of
      the records reports, has been completed by then, whatever the other records are. */
  lemma {:induction false} ReadIsHandled(r: Run, i: nat, u: Uuid, id: Uuid, rs: seq<Inotify.Record>,
                                         rest: seq<Inotify.Byte>, parse: string -> Option<Uuid>, k: nat)
    requires Valid(r) && i < |r.states| && Pending(r.states[i].sys, u, id) && r.states[i].sys.eps[u].watched
    requires ReadsUuids(parse) && Inotify.AllWellFormed(rs) && k < |rs|
    requires |Inotify.SerialiseAll(rs) + rest| + Inotify.HEADER < Inotify.U32
    requires rs[k].name == Bytes(ReplyName(id)) && rs[k].wd == r.states[i].sys.eps[u].wid
    requires Handles(r, i, Actions(Inotify.SerialiseAll(rs) + rest, |Inotify.SerialiseAll(rs)|,
                                   r.states[i].sys.lh.rootWd, parse))
    ensures AllHandled(r, i, |rs|, id)
  {
    OwnWatch(r, i, u);
    var actions := ReadActions(rs, rest, r.states[i].sys.lh.rootWd, parse, k, id);
    EventsComplete(r, i, u, id, actions, k, |rs|);
  }

  /** What one read amounts to, and that its record k is the reply to id. */
  lemma {:induction false} ReadActions(rs: seq<Inotify.Record>, rest: seq<Inotify.Byte>, rootWd: int,
                                       parse: string -> Option<Uuid>, k: nat, id: Uuid)
    returns (actions: seq<Action>)
    requires ReadsUuids(parse) && Inotify.AllWellFormed(rs) && k < |rs|
    requires |Inotify.SerialiseAll(rs) + rest| + Inotify.HEADER < Inotify.U32
    requires rs[k].name == Bytes(ReplyName(id)) && rs[k].wd != rootWd
    ensures actions == Actions(Inotify.SerialiseAll(rs) + rest, |Inotify.SerialiseAll(rs)|, rootWd, parse)
    ensures |actions| == |rs| && actions[k] == Event(rs[k].wd, ReplyName(id), Some(id))
    ensures forall a :: a in actions ==> a.Event?
  {
    actions := Actions(Inotify.SerialiseAll(rs) + rest, |Inotify.SerialiseAll(rs)|, rootWd, parse);
    NamesTheReply(rs, rest, rootWd, parse, k, id);
    ActionsAreEvents(Inotify.SerialiseAll(rs) + rest, |Inotify.SerialiseAll(rs)|, rootWd, parse);
  }

  lemma OwnWatch(r: Run, i: nat, u: Uuid)
    requires Valid(r) && i < |r.states| && u in r.states[i].sys.eps && r.states[i].sys.eps[u].watched
    ensures r.states[i].sys.eps[u].wid != r.states[i].sys.lh.rootWd
  {
    WatchesAreInverse(r, i);
  }

  /** The same for events, however they were read. */
  lemma {:induction false} EventsComplete(r: Run, i: nat, u: Uuid, id: Uuid, actions: seq<Action>, k: nat, n: nat)
    requires Valid(r) && i < |r.states| && Pending(r.states[i].sys, u, id) && r.states[i].sys.eps[u].watched
    requires Handles(r, i, actions) && (forall a :: a in actions ==> a.Event?) && k < |actions|
    requires actions[k] == Event(r.states[i].sys.eps[u].wid, ReplyName(id), Some(id)) && n == |actions|
    ensures AllHandled(r, i, n, id)
  {
    var wid := r.states[i].sys.eps[u].wid;
    AreEvents(r, i, actions);
    AwaitedUntil(r, i, k, u, id, wid);
    AwaitedIsAllHandled(r, i + k, u, id, wid);
    HistoryGrows(r, i + k + 1, i + n);
    RunApplies(r, i, n);
  }

  lemma AreEvents(r: Run, i: nat, actions: seq<Action>)
    requires Handles(r, i, actions) && forall a :: a in actions ==> a.Event?
    ensures forall j :: i <= j < i + |actions| ==> r.steps[j].act.Event?
  {
    forall j | i <= j < i + |actions| ensures r.steps[j].act.Event? {
      assert r.steps[i + (j - i)].act == actions[j - i];
    }
  }

  lemma {:induction false} NamesTheReply(rs: seq<Inotify.Record>, rest: seq<Inotify.Byte>, rootWd: int,
                                         parse: string -> Option<Uuid>, k: nat, id: Uuid)
    requires ReadsUuids(parse) && Inotify.AllWellFormed(rs) && k < |rs|
    requires |Inotify.SerialiseAll(rs) + rest| + Inotify.HEADER < Inotify.U32
    requires rs[k].name == Bytes(ReplyName(id)) && rs[k].wd != rootWd
    ensures var actions := Actions(Inotify.SerialiseAll(rs) + rest, |Inotify.SerialiseAll(rs)|, rootWd, parse);
            |actions| == |rs| && actions[k] == Event(rs[k].wd, ReplyName(id), Some(id))
  {
    ActionAt(rs, rest, rootWd, parse, k);
    UuidIsAscii(id);
    TextRoundTrip(ReplyName(id));
    assert ReplyName(id)[|LOOKOUT_PREFIX|..] == id;
  }

  lemma AwaitedIsAllHandled(r: Run, m: nat, u: Uuid, id: Uuid, wid: int)
    requires Valid(r) && m < |r.steps| && r.steps[m].act == Event(wid, ReplyName(id), Some(id))
    requires Awaited(r.states[m], u, id, wid) || id in r.states[m].consumed
    ensures id in r.states[m + 1].consumed
  {
    if id in r.states[m].consumed {
      HistoryNext(r, m);
    } else {
      ReplyFindsItsCommand(r, m, u, id, wid);
      CompletionConsumes(r, m, u, id);
    }
  }
}
