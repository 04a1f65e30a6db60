# Verification of the lookout monitor

niova-lookout watches a directory of control interfaces. Every endpoint in it is found by lsof
scans or directory events, identified by a query, then polled; a monitor loop expires unanswered
commands and moves endpoints through a lifecycle; replies come in through inotify; peers learn of
the endpoints by gossip, and metrics are rendered for Prometheus. This project models those parts
and proves what they promise.

## Main results

Each is about every input or every run; the table under "Model" says where the code is.

- The joint invariant of watch index, endpoints, commands, generations and clock holds in every
  reachable state (`Runs.Reachable`), and no consistency check of the monitor can fail
  (`Runs.NoInternalFatal`, `Runs.WatchesAreInverse`).
- At most one command is pending per endpoint, and it is the one issued under its key if and only
  if no failed PMDB write overwrote it (`Runs.PendingCommands`, `Runs.IntactIff`); every id is
  pending, consumed or expired, and completes at most once (`Runs.CommandConservation`,
  `Runs.CompletesOnce`).
- A lost reply, or an overwritten command, never wedges an endpoint (`Runs.NoWedge`,
  `Runs.TornExpires`, `Objects.LookoutHandler.MonitorOnce`); two answers bring it back to Running,
  and one that answers in time never leaves it (`Runs.Recovery`, `Runs.ResponsiveStaysRunning`).
- What one reply, cleaning, poll, sighting, event or scan does to an endpoint, in the terms of the
  interface: keys of the reply, text of the command, seconds, number of scans, names of events
  (`Behaviour.IdentifyReply`, `Behaviour.InfoReply`, `Behaviour.CleaningDoes`, `Behaviour.PollingDoes`,
  `Behaviour.PendingText`, `Behaviour.SightingDoes`, `Behaviour.EventMeans`, `Behaviour.ScanDoes`).
- The lifecycle's edges, all of them and no others (`Runs.LifecycleEdges`, `Runs.RemovingIsLeftBy`,
  `Runs.LateRevivesIff`, `Witness.EdgeIsTaken`).
- Removal only after a whole scan that missed the endpoint, never of an endpoint every scan sees,
  and surely of a stale silent one (`Scans.RemovalFollowsMissedScan`, `Scans.SeenIsNeverRemoved`,
  `Scans.Convergence`).
- What is serialised as inotify records is what is decoded, and handling a whole read completes
  every awaited command whose reply it reports (`Inotify.DecodeRoundTrip`, `Delivery.ReadIsHandled`).
- Gossip tags read back as the monitor's own map, for all lookouts of a cluster at once
  (`Gossip.GossipRoundTrip`, `Gossip.PassKnowsAll`, `Gossip.PeersSeeTheMonitor`); histograms are
  rendered exactly (`Histogram.RowsExactIff`, `Histogram.HistogramIsExact`); the reused label map is
  as good as fresh ones, and everything is rendered once, in order (`NisdMetrics.ReusedMapIsPureIff`,
  `NisdMetrics.RenderedInOrder`).

## How it is organised

| file | what it holds |
|---|---|
| `Lookout.dfy` | values: endpoints, commands, the outcome of a step, what a step learns from outside |
| `EndpointSpec.dfy` | each monitor operation as a function on values |
| `EndpointLemmas.dfy` | what each operation keeps of the endpoint it works on |
| `System.dfy` | the whole monitor as a transition system, its runs, its invariant |
| `Effects.dfy` | what one step does to commands, generations and clocks; the invariant is inductive |
| `Runs.dfy` | safety, conservation, lifecycle and recovery theorems over all runs |
| `Behaviour.dfy` | what each operation does, over all runs, in the terms of the interface alone |
| `Scans.dfy` | what interleaved lsof scans decide: removal and convergence |
| `Witness.dfy` | runs that exist: one for every lifecycle edge, one with an overwritten command |
| `Passes.dfy` | whole passes of `CleanEPs` and `PollEPs`, in any map order |
| `Objects.dfy` | the mutable objects (`LookoutHandler`, `NcsiEP`, `EpCommand`, `EPContainer`), each method proved to compute its function |
| `Inotify.dfy`, `Delivery.dfy` | the event decoder in uint32 arithmetic and its round trip; from decoded bytes to the command they complete |
| `Gossip.dfy`, `Communication.dfy` | gossip tags written and read back; port range; duplicate removal |
| `NisdMetrics.dfy`, `Histogram.dfy` | the reused label map; histogram rows |
| `Decimal.dfy`, `Walk.dfy` | decimal text; walking a map in any order |
| `SampleCodec.dfy` | one codec and one uuid parser that meet the assumptions made of the libraries |

A method of a class computes on mutable fields; its `ensures` equates the new state with the
function of the same name in `EndpointSpec` or `System`. The theorems are about those functions
and about runs of the transition system built from them. Pending commands are objects: the map of
an endpoint refers to them, and `QueryApp` assigns to one that is already in the map.

## Assumptions

- **Atomic steps.** One `AddEp`, one iteration of `CleanEPs`, one `Poll` and one `Complete` are
  each a single step, and an lsof scan is a begin step, one step per uuid it sees, and an end
  step, all freely interleaved. The code does not lock around `Complete`
  (`pkg/monitor/lookout.go:385`), so this is an assumption. The action `Late` weakens it: a
  completion may reach any stored endpoint at any time, so cleaning may land between
  `epWatchLookup` and `Complete`. Every theorem holds with `Late`. It adds two lifecycle edges,
  Removing to HasIdentity and Removing to Running: `Runs.LateRevivesIff` says exactly when,
  `Witness.EdgeIsTaken` shows that they are taken, and without `Late` only a sighting leaves
  Removing (`Runs.RemovingIsLeftBy`).
- **Kernel.** A ghost map `owner` from descriptor to path never shrinks. Asked to watch a path,
  the kernel answers with an error, the descriptor it has for that path, or a new one. The code
  sets `ep.wid` to -1 before `InotifyRmWatch` (`pkg/monitor/lookout.go:290-292`), so the old watch
  really survives; nothing here claims that the kernel's watches are those of `wmap`.
- **Fatal and halt.** A consistency check that fails is `Fatal`, proved unreachable; a kernel
  error from `InotifyAddWatch` is `Halt`, which ends the run.
- **Clock, ids, files.** The clock counts from the zero time, is past its first minute, does not go
  back and is read once per step; command ids are fresh and never the nil uuid; every file write
  and read may succeed or fail, and the reply file named after the nil uuid is an input of its own;
  a JSON document is the set of its top-level keys, and whether it decodes into the typed structure
  is an input.
- **Issued** means having entered some endpoint's pending map.
- **uuids** are their canonical text: 36 characters, dashes at 8, 13, 18 and 23, lower-case
  hexadecimal digits elsewhere. The result of `uuid.Parse` is an input, and where texts are parsed it
  is only assumed to read canonical texts.
- **Libraries.** The uuid compressor and the JSON encodings are parameters, assumed invertible, and
  a compressed uuid is assumed never to begin with `LO-`; `SampleCodec.SampleIsLawful` shows that
  the assumptions can be met. Go map iteration visits every key once in an order nobody controls,
  and the theorems hold for every order.

## Where the code falls short

- The retry in `queryApp` destroys the command it retries. After the write of a PMDB query fails,
  the fallback query is assigned to the variable whose address is already in the pending map
  (`pkg/monitor/ctl_interface.go:581-586`, `:332`), and is then refused because a command is
  pending. What stays pending has the nil uuid, the zero start time, the raft operation and no
  OUTFILE line; no error is reported (`EndpointLemmas.QueryAppKeeps`). A reply under its key is
  read from the file named after the nil uuid and, if readable, takes the branch that does nothing
  but bring Down back to Running (`EndpointLemmas.CompleteKeeps`). This is the only way a pending
  command differs from the one issued (`Runs.IntactIff`), it does happen
  (`Witness.CommandIsTorn`), and the next cleaning removes the command at once
  (`Runs.TornExpires`), which is what keeps the endpoint from being wedged.
- The inotify loop converts `n - 16` to uint32. With fewer than 16 bytes read the bound wraps and
  the loop runs over old buffer contents until it leaves the buffer (`Inotify.ShortReadCrashes`);
  the round trip holds exactly for non-empty event lists.
- The port range of all 65536 ports has length zero, and a range whose start is above its end wraps
  around (`Communication.RangeIsIntervalIff`).
- A histogram is rendered exactly if and only if the bounds of its non-zero fields are distinct
  canonical decimals (`Histogram.RowsExactIff`); those of the application's own histogram are.
- The printed `_count` is the sum of the counts if and only if that sum fits a 64-bit int
  (`Histogram.RowsSumToTotalIff`); two counts of the largest int do not (`Histogram.TotalCanWrap`).
- The reused label map agrees with the pure account unless the caller's map already carries chunk
  labels and a named record follows (`NisdMetrics.ReusedMapIsPureIff`); the metrics page's does not.

## Model

| member | source | states |
|---|---|---|
| Runs.Reachable | pkg/monitor/lookout.go:338-387 | every state of every run satisfies the joint invariant of index, endpoints, commands, generations and clock |
| Runs.NoInternalFatal | pkg/monitor/lookout.go:232-292 | no step a run can take next trips a consistency check: busy or duplicate descriptor, unknown or foreign index entry, wrong watched flag, generation ahead, write through the missing output pointer |
| Runs.WatchesAreInverse | pkg/monitor/ctl_interface.go:191-243 | `wmap` maps w to u exactly when u is stored, watched and has descriptor w; watched exactly in watched states; the root descriptor is never in `wmap` |
| Runs.PendingCommands | pkg/monitor/ctl_interface.go:413-485 | at most one pending command per endpoint; keyed by its own id, an identify only in Init or Removing, an info command only of the kind the current application answers, unless a failed PMDB write overwrote it: then it is exactly the nil-uuid raft query with the zero time; identified states have a recognised application |
| Runs.IntactIff | pkg/monitor/ctl_interface.go:578-590 | a pending command is the one issued under its key, with its kind and its OUTFILE line, if and only if no step issued a PMDB query under that key and failed to write it; otherwise its reply is read from the file of the nil uuid |
| Runs.TornExpires | pkg/monitor/ctl_interface.go:159-164 | an overwritten command is gone after the next cleaning of its endpoint, however soon |
| Runs.ReplyFindsItsCommand | pkg/monitor/lookout.go:338-387 | a reply file named after a pending key is dispatched to that command exactly when the event is on that endpoint's own watch; the command asks for that file if and only if it was not overwritten |
| Runs.LifecycleEdges | pkg/monitor/endpointContainer.go:122-166 | a stored endpoint is never Unknown, appears in Init by a sighting, and moves only along the lifecycle's edges; two extra edges out of Removing need a completion that was looked up earlier |
| Runs.RemovingIsLeftBy | pkg/monitor/endpointContainer.go:127-148 | Removing is left only by a sighting, which leads to Init, or by a late completion on that endpoint |
| Runs.LateRevivesIff | pkg/monitor/ctl_interface.go:413-485 | a late completion leaves Removing if and only if its id is pending and the reply is a readable file that decodes, or names an application |
| Witness.EdgeIsTaken | pkg/monitor/ctl_interface.go:413-485 | every edge of the lifecycle is the last step of some run; the two late ones by a late completion, the others without |
| Witness.CommandIsTorn | pkg/monitor/ctl_interface.go:578-590 | a create event, a poll, an identify reply naming PMDB and a failed write leave an overwritten command pending |
| Runs.Recovery | pkg/monitor/ctl_interface.go:413-485 | after two answers, with anything in between but a removal, an endpoint is Running, and stays so as long as it answers in time |
| Runs.RunningEndsIff | pkg/monitor/ctl_interface.go:555-566 | a step ends Running if and only if it cleans or polls the endpoint and finds it was last seen more than 60 s ago |
| Runs.ResponsiveStaysRunning | pkg/monitor/endpointContainer.go:54-65 | an endpoint that no cleaning or poll finds silent stays Running, whatever scans miss it and whatever replies or writes fail |
| Runs.RunApplies | pkg/monitor/endpointContainer.go:44-81 | applying a stretch of a run's steps one after the other, as the loops do, leads where the run goes |
| Behaviour.IdentifyReply | pkg/monitor/applications/application.go:118-133 | an identify reply makes the endpoint PMDB exactly if it has the raft key, NISD exactly if it has the nisd key and not the raft key, a client exactly if it has the client key and neither other; it is then HasIdentity with that application's query pending, else unrecognized and otherwise as it was |
| Behaviour.MalformedIdentifyReply | pkg/monitor/applications/application.go:119-122 | a reply that is no JSON object leaves the endpoint unrecognized and otherwise as it was |
| Behaviour.InfoReply | pkg/monitor/ctl_interface.go:413-452 | what an info reply does, by whether its file is readable and decodes; an overwritten command reads the file of the nil uuid and is never taken for an answer |
| Behaviour.CleaningDoes | pkg/monitor/endpointContainer.go:48-66 | exactly the commands older than 60 s go; Running becomes Down exactly when silent for more than 60 s and is never removed; Init, HasIdentity and Down become Removing exactly when at least two scans have begun since the last sighting |
| Behaviour.MissedIs | pkg/monitor/ctl_interface.go:304-309 | the generation is the endpoint's stamp plus the number of scans begun since it was last sighted |
| Behaviour.PollingDoes | pkg/monitor/ctl_interface.go:538-590 | with nothing pending, exactly which command becomes pending, with its whole text, for each state and application; Running and silent for more than 60 s becomes Down |
| Behaviour.PendingText | pkg/monitor/applications/nisd.go:254-256 | in every reachable state the whole text of a pending command is the request of its kind and the line that names its own answer file |
| Behaviour.SightingDoes | pkg/monitor/endpointContainer.go:122-166 | a new endpoint is unrecognized, in Init, seen now, with nothing pending; a known one is only stamped, unless in Removing: then it starts over in Init |
| Behaviour.EventMeans | pkg/monitor/lookout.go:338-387 | a root event whose name is a uuid sights it; an event on the watch of an endpoint not in Removing, named `lkoep_` and a uuid, is a reply to it; nothing else means anything |
| Behaviour.EventIgnored | pkg/monitor/lookout.go:344-382 | an event that means nothing changes nothing |
| Behaviour.ReplyLandsWhereWatched | pkg/monitor/ctl_interface.go:106-112 | the file a pending command is answered in lies in the very directory its endpoint is watched in |
| Behaviour.ScanDoes | pkg/monitor/lookout.go:69-112 | a scan is one begin, a sighting for each endpoint it comes across and an end; it moves the generation by one and stamps all of them with it |
| Behaviour.WatchVerdicts | pkg/monitor/lookout.go:221-293 | from any state, when adding or removing a watch succeeds, what it changes, and which check fails otherwise |
| Behaviour.OtherChecks | pkg/monitor/ctl_interface.go:206-284 | the wildcard state, a wrong watch flag and a stamp that is ahead are fatal |
| Runs.CommandConservation | pkg/monitor/ctl_interface.go:292-356 | an id has been issued exactly when it is pending, consumed or expired; these exclude one another, and it is pending on one endpoint only |
| Runs.CompletesOnce | pkg/monitor/ctl_interface.go:413-417 | in a run an id completes at most once, and never after it expired |
| Runs.SecondCompletionIsNoEntry | pkg/monitor/ctl_interface.go:413-417 | completing a consumed or expired id on any endpoint is ENOENT and changes nothing |
| Runs.CommandsStayRecent | pkg/monitor/ctl_interface.go:292-296 | after an endpoint was cleaned, each of its pending commands, at any later time, was started at most 60 s before the cleaning if and only if it was not overwritten, and an overwritten one was issued since |
| Runs.NoWedge | pkg/monitor/endpointContainer.go:44-81 | cleaned and later polled, with any steps in between, an endpoint outside Removing has exactly one pending command, at most 60 s old at the cleaning if and only if it was not overwritten since |
| Runs.LastSeenSince | pkg/monitor/ctl_interface.go:245-270 | at any later time the last-seen time is at least that of any earlier update or entry to Running |
| Runs.DownOnlyAfterSilence | pkg/monitor/ctl_interface.go:311-316 | Running is left only for Down, more than 60 s after every earlier update and every earlier entry to Running |
| Scans.ScanNext | pkg/monitor/lookout.go:69-112 | one step moves the generation only at a scan's begin, and an endpoint's stamp only by sighting it, to the current generation |
| Scans.GenGrows | pkg/monitor/ctl_interface.go:280-290 | generation and stamps never go back along a run |
| Scans.StampFresh | pkg/monitor/ctl_interface.go:304-309 | an endpoint every completed scan sees is at most one generation behind during a scan and none behind outside |
| Scans.SeenIsNeverRemoved | pkg/monitor/endpointContainer.go:54-65 | an endpoint every completed scan sees is never moved to Removing, however scans and cleaning interleave |
| Scans.RemovalIsStale | pkg/monitor/endpointContainer.go:54-65 | only the cleaning of an endpoint moves it to Removing, and only with a generation at least two above its stamp |
| Scans.RemovalFollowsMissedScan | pkg/monitor/lookout.go:69-112 | before each move to Removing there was a whole scan, and nothing sighted the endpoint from that scan's begin to the move |
| Scans.QuietNext | pkg/monitor/endpointContainer.go:44-67 | on a stale, silent endpoint no step raises the rank Running, other, Removing, and each cleaning lowers it until Removing |
| Scans.Convergence | pkg/monitor/endpointContainer.go:44-67 | an endpoint unseen and silent is in Removing after at most two further cleanings and stays there, whatever runs in between |
| EndpointLemmas.ChangeStateKeeps | pkg/monitor/ctl_interface.go:206-270 | a state change keeps flag, descriptor and index consistent, touches only the endpoint's own entry, never dies, and halts exactly when it must start a watch and the kernel refuses |
| EndpointLemmas.SubmitKeeps | pkg/monitor/ctl_interface.go:151-189 | with nothing pending exactly the command issued becomes pending, started now, its text ending in its own OUTFILE line; otherwise nothing changes and nothing fails |
| EndpointLemmas.QueryAppKeeps | pkg/monitor/ctl_interface.go:578-590 | whatever the file writes do, a query leaves exactly one command pending, given in full with its text, and reports no error; when the write fails on a PMDB endpoint the fallback overwrites the pending command and is refused |
| EndpointLemmas.SightKeeps | pkg/monitor/endpointContainer.go:122-148 | sighting a known endpoint keeps its invariant and takes only the edge Removing to Init |
| EndpointLemmas.NewKeeps | pkg/monitor/endpointContainer.go:150-165 | a new endpoint moved to Init satisfies the invariant |
| EndpointLemmas.CleanKeeps | pkg/monitor/endpointContainer.go:48-66 | one cleaning keeps the invariant and stays on the lifecycle's edges |
| EndpointLemmas.PollKeeps | pkg/monitor/ctl_interface.go:538-576 | one poll keeps the invariant and stays on the lifecycle's edges |
| EndpointLemmas.CompleteIdentifyKeeps | pkg/monitor/ctl_interface.go:461-480 | an identify reply whose keys name no application only clears the application; one whose keys do makes the endpoint HasIdentity with exactly that application's query pending |
| EndpointLemmas.CompleteKeeps | pkg/monitor/ctl_interface.go:413-485 | every completion keeps the invariant; an unknown id is ENOENT and changes nothing; a pending one is consumed whatever the reply, and state and error code are exactly the reply's; the custom branch is never taken, the raft branch only by an overwritten command |
| Lookout.XpathInjective | pkg/monitor/ctl_interface.go:272-278 | two endpoints never share a reply directory, nor one with the root |
| System.LawFits | pkg/monitor/lookout.go:240-253 | a kernel that keeps its own law hands an endpoint its old descriptor or one nobody uses, never the root's |
| System.TargetKept | pkg/monitor/lookout.go:338-387 | whichever step runs, its endpoint's own invariant and index entry are kept |
| System.NoFatal | pkg/monitor/lookout.go:232-292 | from any state satisfying the invariant no step dies on a consistency check |
| System.WatchIndexNext | pkg/monitor/lookout.go:221-293 | one step keeps the index and the endpoints exact inverses |
| System.EndpointsNext | pkg/monitor/endpointContainer.go:122-166 | one step keeps every endpoint's own invariant and its uuid as its key |
| System.ScanWhole | pkg/monitor/lookout.go:69-112 | a scan is its begin, its sightings and an end that changes nothing |
| Effects.SweepEffect | pkg/monitor/endpointContainer.go:48-66 | exactly what cleaning does: expired commands leave, Running and silent becomes Down, stale and not Running becomes Removing |
| Effects.ProbeEffect | pkg/monitor/ctl_interface.go:538-576 | exactly what polling does: which command becomes pending, and Running and silent becomes Down |
| Effects.TargetEffect | pkg/monitor/lookout.go:338-387 | for any step: ids leave by being consumed or expiring, one fresh id may enter, started now or overwritten if its PMDB write failed; stamps and clocks only go forward |
| Effects.Framed | pkg/monitor/lookout.go:356-385 | a step on one endpoint leaves every other endpoint, pending commands included, as it was |
| Effects.ConservedNext | pkg/monitor/ctl_interface.go:292-356 | one step keeps every issued id in exactly one place |
| Effects.TornKnownNext | pkg/monitor/ctl_interface.go:578-590 | one step keeps the pending raft queries exactly the overwritten ones |
| Effects.InvNext | pkg/monitor/lookout.go:338-387 | the joint invariant is inductive |
| Passes.CleanVisit | pkg/monitor/endpointContainer.go:48-66 | one visit of the cleaning loop, whatever the kernel would say, never fails, touches only its endpoint's entry, and cleans it |
| Passes.PollVisit | pkg/monitor/endpointContainer.go:75-80 | one visit of the polling loop likewise; it leaves one command pending, the old one if there was one, a new one started now or overwritten exactly if its PMDB write failed |
| Passes.WholePass | pkg/monitor/endpointContainer.go:44-81 | a whole pass, in any order, never fails and does to each endpoint what its own visit does |
| Passes.Iterated | pkg/monitor/lookout.go:150-155 | after a cleaning and a polling pass every endpoint is in Removing or has one command, unexpired at its cleaning if and only if its own poll did not overwrite it |
| Objects.LookoutHandler.EpWatchAdd | pkg/monitor/lookout.go:221-261 | same verdict, index and descriptor as the specification; only this endpoint's entry changes |
| Objects.LookoutHandler.EpWatchRemove | pkg/monitor/lookout.go:263-293 | same verdict, index and descriptor as the specification |
| Objects.LookoutHandler.ProcessEvent | pkg/monitor/lookout.go:338-387 | one event takes the whole heap exactly where the transition system's event step goes |
| Objects.LookoutHandler.LookoutLsof | pkg/monitor/lookout.go:69-112 | one scan takes the heap where the scan's steps go, up to a step that ends the process |
| Objects.LookoutHandler.MonitorOnce | pkg/monitor/lookout.go:150-155 | one turn of the monitor loop over the real objects: no failure, and every endpoint outside Removing left with one command, unexpired at its cleaning if and only if its own poll did not overwrite it |
| Objects.NcsiEP.constructor | pkg/monitor/endpointContainer.go:150-159 | a new endpoint, Unknown, unwatched, stamped with the current generation |
| Objects.NcsiEP.WatchCtl | pkg/monitor/ctl_interface.go:215-243 | computes the specification on fields |
| Objects.NcsiEP.ChangeState | pkg/monitor/ctl_interface.go:245-270 | computes the specification on fields; only this object's index entries change |
| Objects.NcsiEP.LsofGenUpdate | pkg/monitor/ctl_interface.go:280-290 | stamps the endpoint, or dies when the stamp is ahead |
| Objects.NcsiEP.AddCmd | pkg/monitor/ctl_interface.go:326-341 | the map refers to the very command object, started now, unless its id exists |
| Objects.EpCommand.Submit | pkg/monitor/ctl_interface.go:168-189 | computes the specification; when accepted the map refers to this very object |
| Objects.EpCommand.Assign | pkg/monitor/ctl_interface.go:585 | the object, wherever it is referred to, is the new command with every other field zero |
| Objects.NcsiEP.RemoveCmd | pkg/monitor/ctl_interface.go:343-356 | returns the command object if present, removing it when forced or expired |
| Objects.NcsiEP.FlushStaleCmds | pkg/monitor/ctl_interface.go:292-296 | keeps exactly the unexpired commands |
| Objects.NcsiEP.QueryApp | pkg/monitor/ctl_interface.go:578-590 | computes the specification on objects: the retry overwrites the command the map refers to |
| Objects.NcsiEP.Update | pkg/monitor/ctl_interface.go:365-373 | computes the specification on fields |
| Objects.NcsiEP.CompleteIdentify | pkg/monitor/ctl_interface.go:461-480 | computes the specification on fields |
| Objects.NcsiEP.Complete | pkg/monitor/ctl_interface.go:413-485 | computes the specification on fields, error code included |
| Objects.NcsiEP.Answer | pkg/monitor/ctl_interface.go:425-484 | computes the specification of a completion whose reply was read |
| Objects.NcsiEP.Poll | pkg/monitor/ctl_interface.go:538-576 | computes the specification on fields |
| Objects.NcsiEP.Clean | pkg/monitor/endpointContainer.go:48-66 | computes the specification on fields |
| Objects.NcsiEP.Sight | pkg/monitor/endpointContainer.go:127-148 | computes the specification on fields |
| Objects.EPContainer.AddEp | pkg/monitor/endpointContainer.go:122-166 | the whole heap moves as one `AddEp` step; true exactly for a new endpoint; objects stay under their own uuids |
| Objects.EPContainer.CompleteOn | pkg/monitor/lookout.go:384-385 | a completion on one stored object moves the whole heap as one completion step |
| Objects.EPContainer.Process | pkg/monitor/endpointContainer.go:100-104 | a late completion on a stored uuid moves the whole heap as the late step; on an unknown one nothing changes |
| Objects.EPContainer.CleanEPs | pkg/monitor/endpointContainer.go:44-67 | the loop over the map, in any order, is a pass: afterwards nothing expired is pending, no Running endpoint was silent for 60 s, and every stale endpoint is Removing unless it was Running |
| Objects.EPContainer.PollEPs | pkg/monitor/endpointContainer.go:71-81 | the loop over the map, in any order, is a pass: every endpoint outside Removing is left with one command |
| Inotify.EpInotifyWatch | pkg/monitor/lookout.go:199-215 | the buffer loop ends and yields the decoded events, the final offset, and whether it stayed inside the buffer |
| Inotify.DecodeRoundTrip | pkg/monitor/lookout.go:199-215 | for any buffer whose first n bytes are a serialised event list the loop yields exactly that list and stops at n, if and only if the list is not empty |
| Inotify.DecodeFrom | pkg/monitor/lookout.go:199-215 | the same from any record boundary, in uint32 arithmetic that never wraps |
| Inotify.ShortReadCrashes | pkg/monitor/lookout.go:200-202 | with fewer than 16 bytes read the wrapped bound lets the loop run out of the buffer |
| Delivery.ReadIsHandled | pkg/monitor/lookout.go:199-215 | a run that handles the events of one read in order arrives where applying them leads, and has then completed every awaited command whose reply file a record reports, whatever the other records are |
| Delivery.ReplyIsDelivered | pkg/monitor/lookout.go:199-215 | wherever it stands in a read, the record that reports a pending command's reply file on its endpoint's watch decodes and dispatches to the completion of that command |
| Delivery.CreationIsDelivered | pkg/monitor/lookout.go:342-351 | the record of a new directory named by a uuid decodes and dispatches to its sighting |
| Inotify.EventIs | pkg/monitor/lookout.go:201-205 | for any bytes, the event at an offset: four little-endian words, the first signed, and the bytes after them but for trailing NULs |
| Inotify.LoopIs | pkg/monitor/lookout.go:200-215 | for any buffer, one turn of the loop: it ends when no header is left before n, delivers a record that ends within the buffer, and dies on one that does not |
| Inotify.RecordRoundTrip | pkg/monitor/lookout.go:201-205 | one record reads back its four fields and its name without padding, wherever it stands |
| Inotify.TrimRightPadded | pkg/monitor/lookout.go:203 | trimming removes exactly the NUL padding |
| Gossip.GossipRoundTrip | pkg/communication/gossip_comms.go:217-343 | reading the announced tags, in any walking order, is never skipped and gives exactly the endpoints, each with the name of its application and "1" or "0", the addresses, the HTTP port, the start and end port in this order, and the time |
| Gossip.PeersSeeTheMonitor | pkg/communication/gossip_comms.go:297-343 | in every reachable monitor state peers learn exactly its endpoints and their applications by name, up exactly when Running, and then one of PMDB, NISD and NCLIENT |
| Gossip.AnnounceIsFromEndpoints | pkg/communication/gossip_comms.go:297-343 | the lookout's own tags do not overwrite an endpoint's |
| Gossip.PassKnowsAll | pkg/communication/gossip_comms.go:222-286 | one pass over members that announce lookouts with distinct uuids, malformed ones among them, leaves each known by exactly the addresses, ports, time and endpoints it announced, and every other as it was |
| Gossip.MemberIsReadIff | pkg/communication/gossip_comms.go:226-245 | a member is skipped exactly when its time is no number or its addresses or port range do not decode |
| Gossip.AppsReadIff | pkg/communication/gossip_comms.go:254-281 | for any tags, an endpoint is read exactly when a tag outside the lookout's own announces it and decodes, and as one such tag says |
| Gossip.OwnTagsAre | pkg/communication/gossip_comms.go:329-341 | the six tags of the lookout itself, by name: uuid, type LOOKOUT, HTTP port, addresses, start and end port, time |
| Gossip.CollectKnows | pkg/communication/gossip_comms.go:222-286 | after a pass a lookout is known by the last well-formed announcement under its uuid |
| Gossip.CollectAddsOnly | pkg/communication/gossip_comms.go:222-286 | lookouts that no well-formed member announces are untouched |
| Communication.CommHandler.GetCompressedGossipData | pkg/communication/gossip_comms.go:297-343 | the loop, in whatever order it walks the map, builds tags that hold each endpoint's name and status, no other endpoint tag, and the lookout's own six tags |
| Communication.CommHandler.ReadMonitoredApps | pkg/communication/gossip_comms.go:254-281 | the loop over tags skips metadata and malformed entries and recovers exactly the endpoints the tags were made from |
| Communication.CommHandler.ReadMemberTags | pkg/communication/gossip_comms.go:223-281 | one member is read or skipped as the specification says, its endpoints recovered exactly |
| Communication.CommHandler.GetTags | pkg/communication/gossip_comms.go:221-290 | one pass over the members updates the known lookouts as the specification says |
| Communication.CommHandler.MakeRange | pkg/communication/gossip_comms.go:387-393 | the stored port range is the uint16 range |
| Communication.RangeAt | pkg/communication/gossip_comms.go:387-393 | the length of the range and the port at each place, wrap-around included |
| Communication.RangeIsDistinct | pkg/communication/gossip_comms.go:387-393 | the ports are pairwise distinct, the first is S and the last is E, each followed by its successor |
| Communication.RangeIsIntervalIff | pkg/communication/gossip_comms.go:387-393 | the range holds exactly the ports from S to E, increasing, except for the full range and a start more than one above the end |
| Communication.RemoveDuplicateStr | pkg/communication/gossip_comms.go:395-405 | the loop computes the list without repeats |
| Communication.UniqueIsFirstOccurrences | pkg/communication/gossip_comms.go:395-405 | the same elements, in the order of their first occurrences |
| Communication.UniqueHasNoDuplicates | pkg/communication/gossip_comms.go:395-405 | nothing occurs twice |
| Communication.UniqueIsIdempotent | pkg/communication/gossip_comms.go:395-405 | doing it again changes nothing |
| NisdMetrics.Parse | pkg/monitor/applications/nisd.go:287-342 | the one label map, changed in place, emits the first manager, the first root entry, the system info, the chunks, buffers, tasks and merges, in this order, each with the labels it should have, and what the map is left holding |
| NisdMetrics.RenderNamed | pkg/monitor/applications/nisd.go:319-338 | each named record is emitted with the base labels and its own name, whatever name was left in the map |
| NisdMetrics.RenderChunks | pkg/monitor/applications/nisd.go:306-314 | each chunk is emitted with the base labels and its own chunk labels |
| NisdMetrics.RenderedInOrder | pkg/monitor/applications/nisd.go:287-342 | for any lists, the records in order, and for each the NISD's labels, the caller's others, and its own |
| NisdMetrics.RecordsInOrder | pkg/monitor/applications/nisd.go:300-338 | the records are the first manager, the first root entry, the system info, the chunks, buffers, tasks and merges |
| NisdMetrics.LabelsAreOwn | pkg/monitor/applications/nisd.go:290-338 | every record carries NISD_UUID, TYPE NISD, ALT_NAME and the caller's other labels; chunks their own chunk labels, named records their own name and no chunk labels |
| NisdMetrics.ReusedMapIsPureIff | pkg/monitor/applications/nisd.go:287-342 | the reused map emits what fresh label maps would, if and only if no chunk labels come in that a named record would lose |
| NisdMetrics.MetricsPageIsPure | pkg/communication/http_comms.go:204-214 | with the metrics page's own label map it always does |
| Histogram.ParseHistogram | pkg/prometheusHandler/prometheus_handler.go:25-42 | the loop fills the bucket map and the wrapping total |
| Histogram.MakePromHistogram | pkg/prometheusHandler/prometheus_handler.go:65-89 | the rows are the looked-up counts of the sorted bounds, in whatever order the map was walked |
| Histogram.RowsAre | pkg/prometheusHandler/prometheus_handler.go:74-85 | whatever the bounds, one row for each, labels ascending, the count that is found under the label's text or none |
| Histogram.BoundsArePowers | pkg/monitor/applications/application.go:30-52 | the application's bounds are the powers of two from 1 to 1048576 |
| Histogram.RowsExactIff | pkg/prometheusHandler/prometheus_handler.go:25-89 | the rows are exactly the non-zero fields, each with its count, in strictly increasing order, if and only if their bounds are distinct canonical decimals |
| Histogram.RowsSumToTotalIff | pkg/prometheusHandler/prometheus_handler.go:25-89 | the counts shown add up to the sum of all counts, and to the printed total if and only if that sum fits a 64-bit int |
| Histogram.TotalIsSumIff | pkg/prometheusHandler/prometheus_handler.go:38 | the wrapping total is the sum if and only if the sum fits a 64-bit int |
| Histogram.TotalCanWrap | pkg/prometheusHandler/prometheus_handler.go:38 | two counts of the largest int give a total that is not their sum |
| Histogram.HistogramIsExact | pkg/monitor/applications/application.go:30-52 | the application's histogram is always rendered exactly, and adds up to its total if and only if the sum of its counts fits a 64-bit int |
| Histogram.SortedSorts | pkg/prometheusHandler/prometheus_handler.go:80 | sorting yields an ascending permutation |
| Histogram.BucketsAre | pkg/prometheusHandler/prometheus_handler.go:30-40 | the bucket map holds the bounds of the non-zero fields, each with the text of a count given for it |
| Decimal.ItoaRoundTrip | pkg/prometheusHandler/prometheus_handler.go:77-83 | printing then parsing gives back every 64-bit number |
| Decimal.PlainRoundTrip | pkg/prometheusHandler/prometheus_handler.go:77-83 | parsing then printing gives back every plain decimal text |
| Decimal.AtoiOtherwise | pkg/prometheusHandler/prometheus_handler.go:77 | a text that is no number is read as 0, one out of range as the nearest 64-bit number |

## Left out

- Objects.NcsiEP.Complete: the reply's contents are not stored in the endpoint (`EPInfo`, `outJSON`, name and service type), because no modelled decision reads them.
- Objects.NcsiEP.RemoveCmd: `loadOutfile` also writes its error and contents into the removed command object, which nothing reads afterwards.
- Objects.NcsiEP.LsofGenUpdate: the scan generation is unbounded; its wrap at 2^64 is not modelled.
- Objects.LookoutHandler.LookoutLsof: the walk through `/proc` is reduced to the uuids it comes across.
- Inotify.EpInotifyWatch: one buffer is decoded; the read loop around it and its EAGAIN and EINTR retries are I/O.
- Communication.CommHandler.GetTags: one pass over the members; the endless loop, its sleep and the readable form of the time are left out (the time is kept in seconds).
- NisdMetrics.Parse: records are lists of named numbers and each emission is a record with its labels; the text of the lines and the reflection over struct tags are not modelled.
- NisdMetrics.Parse: an out-of-range manager list or a nil system info, which crashes the code, is `ok == false`.
- `Objects.NcsiEP.Clean`, `Sight`, `Answer`, `EnterState`, `MakeEp`, `AddKnown`, `AddNew`, `Insert`, `ProcessReply`, `CleanOne` and `PollOne` are loop bodies and branches of the code split out as methods of their own.
- Data races inside one `Complete` or `Poll`: the code does not lock against them, and nothing is claimed.
- Handler start-up (`Start`, `epInotifyStart`) is only the initial state: a root descriptor and empty maps.
- `RemoveStaleFiles` and `removeFiles`: file housekeeping that changes no modelled state.
- `MarkAlive`: it panics by design on the only path that would do something.
- `JsonMarshal`, `JsonMarshalUUID`, `TakeSnapshot`, `GetList`: copies and JSON output.
- `Pmdb.Parse` and `Nclient.Parse`, and conformance to the Prometheus histogram format (the code prints non-cumulative `ge` buckets).
- `FillNisdCStruct`, `Time.UnmarshalJSON`, flag parsing, logging, and `LoadConfigInfo`'s file parsing.
- The Serf agent, UDP listener, HTTP server and PMDB client: I/O and code outside the repository.
