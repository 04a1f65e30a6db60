/** What one lookout tells the others through its gossip tags, and what they read out of them. */
module Gossip {
  import opened Lookout
  import opened Decimal
  import opened Walk
  import System
  import Runs
  import EndpointLemmas

  datatype MonitoredApp = MonitoredApp(status: string, kind: string)

  datatype LookoutInfo = LookoutInfo(
    addrs: seq<string>,
    httpPort: string,
    portRange: string,
    apps: map<Uuid, MonitoredApp>,
    lastSeen: int)

  /** What a lookout says about itself. */
  datatype Identity = Identity(uuid: string, httpPort: Int, addrs: seq<string>, portS: Port, portE: Port)

  type Tags = map<string, string>

  /** The uuid compressor and the JSON encodings, which are libraries. */
  datatype Codec = Codec(
    compress: Uuid -> string,
    decompress: string -> Option<Uuid>,
    encApp: MonitoredApp -> string,
    decApp: string -> Option<MonitoredApp>,
    encList: seq<string> -> string,
    decList: string -> Option<seq<string>>,
    encText: string -> string,
    decText: string -> Option<string>)

  const LO := "LO-"

  /** Each encoding can be undone, and a compressed uuid never looks like lookout metadata. */
  ghost predicate Lawful(c: Codec) {
    && (forall u :: c.decompress(c.compress(u)) == Some(u) && !(LO <= c.compress(u)))
    && (forall a :: c.decApp(c.encApp(a)) == Some(a))
    && (forall l :: c.decList(c.encList(l)) == Some(l))
    && (forall t :: c.decText(c.encText(t)) == Some(t))
  }

  function AppName(app: App): string {
    match app
    case Unrecognized => "unrecognized"
    case Pmdb => "PMDB"
    case Nisd => "NISD"
    case Nclient => "NCLIENT"
  }

  function AppOf(ep: Ep): MonitoredApp {
    MonitoredApp(if ep.state == Running then "1" else "0", AppName(ep.app))
  }

  function AppsOf(eps: map<Uuid, Ep>): map<Uuid, MonitoredApp> {
    map u | u in eps :: AppOf(eps[u])
  }

  function PortText(id: Identity): string {
    Itoa(id.portS) + " " + Itoa(id.portE)
  }

  // Announcing

  function PutApp(c: Codec, tags: Tags, ep: Ep): Tags {
    tags[c.compress(ep.uuid) := c.encApp(AppOf(ep))]
  }

  function PutApps(c: Codec, eps: map<Uuid, Ep>, order: seq<Uuid>): Tags
    requires forall u :: u in order ==> u in eps
  {
    if order == [] then map[]
    else PutApp(c, PutApps(c, eps, order[..|order| - 1]), eps[order[|order| - 1]])
  }

  function PutIdentity(c: Codec, tags: Tags, id: Identity, now: int): Tags {
    tags["LO-UUID" := id.uuid]["LO-Type" := "LOOKOUT"]["LO-Hport" := Itoa(id.httpPort)]
        ["LO-IPAddr" := c.encList(id.addrs)]["LO-PortRange" := c.encText(PortText(id))]["LO-Time" := Itoa(now)]
  }

  function Announce(c: Codec, id: Identity, eps: map<Uuid, Ep>, order: seq<Uuid>, now: int): Tags
    requires forall u :: u in order ==> u in eps
  {
    PutIdentity(c, PutApps(c, eps, order), id, now)
  }

  // Reading

  function Tag(tags: Tags, key: string): string {
    if key in tags then tags[key] else ""
  }

  function ReadApp(c: Codec, apps: map<Uuid, MonitoredApp>, key: string, value: string): map<Uuid, MonitoredApp> {
    if LO <= key || c.decompress(key).None? || c.decApp(value).None? then apps
    else apps[c.decompress(key).value := c.decApp(value).value]
  }

  function ReadApps(c: Codec, tags: Tags, order: seq<string>): map<Uuid, MonitoredApp> {
    if order == [] then map[]
    else
      var key := order[|order| - 1];
      ReadApp(c, ReadApps(c, tags, order[..|order| - 1]), key, Tag(tags, key))
  }

  /** None when one of the lookout's own tags is malformed: the member is skipped. */
  function ReadMember(c: Codec, tags: Tags, order: seq<string>): Option<LookoutInfo> {
    var time := ParseInt(Tag(tags, "LO-Time"));
    var addrs := c.decList(Tag(tags, "LO-IPAddr"));
    var ports := c.decText(Tag(tags, "LO-PortRange"));
    if time.None? || addrs.None? || ports.None? then None
    else Some(LookoutInfo(addrs.value, Tag(tags, "LO-Hport"), ports.value, ReadApps(c, tags, order), time.value))
  }

  /** A member's tags, and the order its tags happen to be walked in. */
  datatype Member = Member(tags: Tags, order: seq<string>)

  /** What one member contributes: its uuid and what it says, or nothing when it is skipped. */
  function Entry(c: Codec, m: Member): Option<(string, LookoutInfo)> {
    var info := ReadMember(c, m.tags, m.order);
    if info.None? then None else Some((Tag(m.tags, "LO-UUID"), info.value))
  }

  function Entries(c: Codec, members: seq<Member>): seq<Option<(string, LookoutInfo)>> {
    seq(|members|, i requires 0 <= i < |members| => Entry(c, members[i]))
  }

  function Collect(known: map<string, LookoutInfo>, entries: seq<Option<(string, LookoutInfo)>>)
    : map<string, LookoutInfo>
  {
    if entries == [] then known
    else
      var n := |entries| - 1;
      var rest := Collect(known, entries[..n]);
      if entries[n].None? then rest else rest[entries[n].value.0 := entries[n].value.1]
  }

  // Round trip

  ghost predicate Keyed(eps: map<Uuid, Ep>) {
    forall u :: u in eps ==> eps[u].uuid == u
  }

  lemma {:induction false} PutAppsAre(c: Codec, eps: map<Uuid, Ep>, order: seq<Uuid>)
    requires Lawful(c) && Keyed(eps) && forall u :: u in order ==> u in eps
    ensures forall u :: u in order ==>
              && c.compress(u) in PutApps(c, eps, order)
              && PutApps(c, eps, order)[c.compress(u)] == c.encApp(AppOf(eps[u]))
    ensures forall k :: k in PutApps(c, eps, order) ==> exists u :: u in order && k == c.compress(u)
  {
    if order != [] {
      var init, v := order[..|order| - 1], order[|order| - 1];
      PutAppsAre(c, eps, init);
      forall u | u in order
        ensures c.compress(u) in PutApps(c, eps, order)
        ensures PutApps(c, eps, order)[c.compress(u)] == c.encApp(AppOf(eps[u]))
      {
        if u != v {
          assert u in init;
          assert c.decompress(c.compress(u)) != c.decompress(c.compress(v));
        }
      }
      forall k | k in PutApps(c, eps, order) ensures exists u :: u in order && k == c.compress(u) {
        if k != c.compress(v) {
          var u :| u in init && k == c.compress(u);
          assert u in order;
        } else {
          assert v in order;
        }
      }
    }
  }

  /** Tags that are either metadata or the announcement of one of the endpoints. */
  ghost predicate FromEndpoints(c: Codec, eps: map<Uuid, Ep>, tags: Tags) {
    && (forall u :: u in eps ==> c.compress(u) in tags && tags[c.compress(u)] == c.encApp(AppOf(eps[u])))
    && (forall k :: k in tags && !(LO <= k) ==> exists u :: u in eps && k == c.compress(u))
  }

  /** The lookout's own tags leave the endpoint tags alone. */
  lemma IdentityKeeps(c: Codec, tags: Tags, id: Identity, now: int, k: string)
    requires !(LO <= k)
    ensures k in PutIdentity(c, tags, id, now) <==> k in tags
    ensures k in tags ==> PutIdentity(c, tags, id, now)[k] == tags[k]
  {
    NotMetadata(k);
  }

  lemma AnnounceIsFromEndpoints(c: Codec, id: Identity, eps: map<Uuid, Ep>, order: seq<Uuid>, now: int)
    requires Lawful(c) && Keyed(eps) && WalkOf(order, eps.Keys)
    ensures FromEndpoints(c, eps, Announce(c, id, eps, order, now))
  {
    var apps := PutApps(c, eps, order);
    var tags := PutIdentity(c, apps, id, now);
    PutAppsAre(c, eps, order);
    forall u | u in eps ensures c.compress(u) in tags && tags[c.compress(u)] == c.encApp(AppOf(eps[u])) {
      assert u in order;
      IdentityKeeps(c, apps, id, now, c.compress(u));
    }
    forall k | k in tags && !(LO <= k) ensures exists u :: u in eps && k == c.compress(u) {
      IdentityKeeps(c, apps, id, now, k);
      var u :| u in order && k == c.compress(u);
    }
  }

  lemma NotMetadata(k: string)
    requires !(LO <= k)
    ensures k !in {"LO-UUID", "LO-Type", "LO-Hport", "LO-IPAddr", "LO-PortRange", "LO-Time"}
  {
    assert LO <= "LO-UUID" && LO <= "LO-Type" && LO <= "LO-Hport";
    assert LO <= "LO-IPAddr" && LO <= "LO-PortRange" && LO <= "LO-Time";
  }

  /** What has been read after walking some of the keys. */
  ghost predicate Reads(c: Codec, eps: map<Uuid, Ep>, walked: seq<string>, apps: map<Uuid, MonitoredApp>) {
    && (forall u :: u in apps ==> u in eps && apps[u] == AppOf(eps[u]))
    && (forall u :: u in eps && c.compress(u) in walked ==> u in apps)
  }

  lemma ReadsMetadata(c: Codec, eps: map<Uuid, Ep>, walked: seq<string>, apps: map<Uuid, MonitoredApp>, key: string)
    requires Lawful(c) && Reads(c, eps, walked, apps) && LO <= key
    ensures Reads(c, eps, walked + [key], apps)
  {
    forall u | u in eps && c.compress(u) in walked + [key] ensures u in apps {
      assert c.compress(u) != key;
      assert c.compress(u) in walked;
    }
  }

  lemma ReadsApp(c: Codec, eps: map<Uuid, Ep>, walked: seq<string>, apps: map<Uuid, MonitoredApp>, v: Uuid)
    requires Lawful(c) && Reads(c, eps, walked, apps) && v in eps
    ensures Reads(c, eps, walked + [c.compress(v)], apps[v := AppOf(eps[v])])
  {
    forall u | u in eps && u != v && c.compress(u) in walked + [c.compress(v)] ensures u in apps {
      assert c.decompress(c.compress(u)) != c.decompress(c.compress(v));
      assert c.compress(u) in walked;
    }
  }

  lemma {:induction false} ReadAppsAre(c: Codec, eps: map<Uuid, Ep>, tags: Tags, order: seq<string>)
    requires Lawful(c) && FromEndpoints(c, eps, tags) && forall k :: k in order ==> k in tags
    ensures Reads(c, eps, order, ReadApps(c, tags, order))
  {
    if order != [] {
      var init, key := order[..|order| - 1], order[|order| - 1];
      assert order == init + [key] && key in order && forall k :: k in init ==> k in order;
      ReadAppsAre(c, eps, tags, init);
      var apps := ReadApps(c, tags, init);
      if LO <= key {
        ReadsMetadata(c, eps, init, apps, key);
      } else {
        var v :| v in eps && key == c.compress(v);
        ReadsApp(c, eps, init, apps, v);
      }
    }
  }

  lemma IdentityTags(c: Codec, id: Identity, tags: Tags, now: int)
    ensures var t := PutIdentity(c, tags, id, now);
            && Tag(t, "LO-UUID") == id.uuid && Tag(t, "LO-Hport") == Itoa(id.httpPort)
            && Tag(t, "LO-IPAddr") == c.encList(id.addrs) && Tag(t, "LO-PortRange") == c.encText(PortText(id))
            && Tag(t, "LO-Time") == Itoa(now)
  {
  }

  lemma IdentityIsRead(c: Codec, id: Identity, tags: Tags, now: int, walk: seq<string>)
    requires Lawful(c) && Int64(now)
    requires Tag(tags, "LO-Hport") == Itoa(id.httpPort) && Tag(tags, "LO-Time") == Itoa(now)
    requires Tag(tags, "LO-IPAddr") == c.encList(id.addrs) && Tag(tags, "LO-PortRange") == c.encText(PortText(id))
    ensures ReadMember(c, tags, walk) ==
              Some(LookoutInfo(id.addrs, Itoa(id.httpPort), PortText(id), ReadApps(c, tags, walk), now))
  {
    ItoaRoundTrip(now);
  }

  lemma ReadsAll(c: Codec, eps: map<Uuid, Ep>, tags: Tags, walk: seq<string>, apps: map<Uuid, MonitoredApp>)
    requires FromEndpoints(c, eps, tags) && WalkOf(walk, tags.Keys) && Reads(c, eps, walk, apps)
    ensures apps == AppsOf(eps)
  {
    forall u | u in eps ensures u in apps {
      assert c.compress(u) in tags.Keys;
    }
  }

  lemma AppsAreRead(c: Codec, id: Identity, eps: map<Uuid, Ep>, order: seq<Uuid>, now: int, walk: seq<string>)
    requires Lawful(c) && Keyed(eps) && WalkOf(order, eps.Keys)
    requires WalkOf(walk, Announce(c, id, eps, order, now).Keys)
    ensures ReadApps(c, Announce(c, id, eps, order, now), walk) == AppsOf(eps)
  {
    var tags := Announce(c, id, eps, order, now);
    AnnounceIsFromEndpoints(c, id, eps, order, now);
    ReadAppsAre(c, eps, tags, walk);
    ReadsAll(c, eps, tags, walk, ReadApps(c, tags, walk));
  }

  // What is learned, in the terms of the tags

  predicate NoBlank(s: string) {
    ' ' !in s
  }

  /** Two numbers with one blank between them. */
  ghost predicate TwoNumbers(text: string, a: int, b: int) {
    exists s: string, e: string ::
      text == s + " " + e && NoBlank(s) && NoBlank(e) && ParseInt(s) == Some(a) && ParseInt(e) == Some(b)
  }

  /** The name and the status under which an endpoint is announced. */
  predicate Announces(ep: Ep, m: MonitoredApp) {
    && m.kind == (match ep.app
                  case Pmdb => "PMDB"
                  case Nisd => "NISD"
                  case Nclient => "NCLIENT"
                  case Unrecognized => "unrecognized")
    && m.status == match ep.state
                   case Running => "1"
                   case _ => "0"
  }

  /** The reader knows the lookout's own addresses, ports and time, and exactly its endpoints. */
  ghost predicate Learned(info: LookoutInfo, id: Identity, eps: map<Uuid, Ep>, now: int) {
    && info.addrs == id.addrs && ParseInt(info.httpPort) == Some(id.httpPort as int) && info.lastSeen == now
    && TwoNumbers(info.portRange, id.portS, id.portE)
    && info.apps.Keys == eps.Keys && (forall u :: u in eps ==> Announces(eps[u], info.apps[u]))
  }

  lemma DigitsHaveNoBlank(n: nat)
    ensures NoBlank(Itoa(n))
  {
    DigitsRoundTrip(n);
  }

  lemma PortsAreRead(id: Identity)
    ensures TwoNumbers(PortText(id), id.portS, id.portE)
  {
    var s, e := Itoa(id.portS), Itoa(id.portE);
    DigitsHaveNoBlank(id.portS);
    DigitsHaveNoBlank(id.portE);
    ItoaRoundTrip(id.portS);
    ItoaRoundTrip(id.portE);
    assert PortText(id) == s + " " + e;
  }

  lemma ReadIsLearned(id: Identity, eps: map<Uuid, Ep>, now: int)
    ensures Learned(LookoutInfo(id.addrs, Itoa(id.httpPort), PortText(id), AppsOf(eps), now), id, eps, now)
  {
    PortsAreRead(id);
    ItoaRoundTrip(id.httpPort);
  }

  /** The lookout's own tags. */
  ghost predicate OwnTags(c: Codec, tags: Tags, id: Identity, now: int) {
    && {"LO-UUID", "LO-Type", "LO-Hport", "LO-IPAddr", "LO-PortRange", "LO-Time"} <= tags.Keys
    && tags["LO-UUID"] == id.uuid && tags["LO-Type"] == "LOOKOUT"
    && ParseInt(tags["LO-Hport"]) == Some(id.httpPort as int) && ParseInt(tags["LO-Time"]) == Some(now)
    && c.decList(tags["LO-IPAddr"]) == Some(id.addrs)
    && var ports := c.decText(tags["LO-PortRange"]);
       ports.Some? && TwoNumbers(ports.value, id.portS, id.portE)
  }

  lemma OwnTagsAre(c: Codec, id: Identity, tags: Tags, now: int)
    requires Lawful(c) && Int64(now)
    ensures OwnTags(c, PutIdentity(c, tags, id, now), id, now)
  {
    var t := PutIdentity(c, tags, id, now);
    assert t["LO-PortRange"] == c.encText(PortText(id)) && t["LO-IPAddr"] == c.encList(id.addrs);
    assert t["LO-Hport"] == Itoa(id.httpPort) && t["LO-Time"] == Itoa(now);
    PortsAreRead(id);
    ItoaRoundTrip(id.httpPort);
    ItoaRoundTrip(now);
  }

  lemma ReadBack(c: Codec, id: Identity, eps: map<Uuid, Ep>, order: seq<Uuid>, now: int, walk: seq<string>)
    requires Lawful(c) && Keyed(eps) && WalkOf(order, eps.Keys) && Int64(now)
    requires WalkOf(walk, Announce(c, id, eps, order, now).Keys)
    ensures ReadMember(c, Announce(c, id, eps, order, now), walk) ==
              Some(LookoutInfo(id.addrs, Itoa(id.httpPort), PortText(id), AppsOf(eps), now))
  {
    AppsAreRead(c, id, eps, order, now, walk);
    IdentityTags(c, id, PutApps(c, eps, order), now);
    IdentityIsRead(c, id, Announce(c, id, eps, order, now), now, walk);
  }

  /** Whatever orders the two sides walk their maps in, the reader gets back exactly the
      announcing lookout's endpoints, each with its application's name and its status, and the
      lookout's own addresses, ports and time. The member is never skipped. */
  lemma GossipRoundTrip(c: Codec, id: Identity, eps: map<Uuid, Ep>, order: seq<Uuid>, now: int, walk: seq<string>)
    requires Lawful(c) && Keyed(eps) && WalkOf(order, eps.Keys) && Int64(now)
    requires WalkOf(walk, Announce(c, id, eps, order, now).Keys)
    ensures var tags := Announce(c, id, eps, order, now);
            && OwnTags(c, tags, id, now)
            && ReadMember(c, tags, walk).Some? && Learned(ReadMember(c, tags, walk).value, id, eps, now)
  {
    OwnTagsAre(c, id, PutApps(c, eps, order), now);
    ReadBack(c, id, eps, order, now, walk);
    ReadIsLearned(id, eps, now);
  }

  /** In every reachable state of the monitor, what peers learn is the monitor's own map: exactly its
      endpoints, up exactly when Running, and then with a recognised application. */
  lemma PeersSeeTheMonitor(r: System.Run, i: nat, c: Codec, id: Identity, order: seq<Uuid>, now: int, walk: seq<string>)
    requires System.Valid(r) && i < |r.states| && Lawful(c) && Int64(now)
    requires WalkOf(order, r.states[i].sys.eps.Keys)
    requires WalkOf(walk, Announce(c, id, r.states[i].sys.eps, order, now).Keys)
    ensures var info := ReadMember(c, Announce(c, id, r.states[i].sys.eps, order, now), walk);
            && info.Some? && Learned(info.value, id, r.states[i].sys.eps, now)
            && (forall u :: u in info.value.apps && info.value.apps[u].status == "1" ==>
                  info.value.apps[u].kind in {"PMDB", "NISD", "NCLIENT"})
  {
    var eps := r.states[i].sys.eps;
    Runs.WatchesAreInverse(r, i);
    GossipRoundTrip(c, id, eps, order, now, walk);
    forall u | u in eps ensures eps[u].state == Running ==> eps[u].app != Unrecognized {
      Runs.PendingCommands(r, i, u);
    }
  }

  /** Each endpoint has its own tag, which decodes to its name and status, and there are no other
      tags but the lookout's own. */
  ghost predicate EndpointTags(c: Codec, tags: Tags, eps: map<Uuid, Ep>) {
    && (forall u :: u in eps ==>
          && c.compress(u) in tags && c.decApp(tags[c.compress(u)]).Some?
          && Announces(eps[u], c.decApp(tags[c.compress(u)]).value))
    && (forall k :: k in tags && !("LO-" <= k) ==> exists u :: u in eps && k == c.compress(u))
  }

  lemma EndpointTagsAre(c: Codec, tags: Tags, eps: map<Uuid, Ep>)
    requires Lawful(c) && FromEndpoints(c, eps, tags)
    ensures EndpointTags(c, tags, eps)
  {
  }

  // What is skipped

  /** A member is skipped exactly when its time is no 64-bit number or its addresses or its port
      range do not decode. */
  lemma MemberIsReadIff(c: Codec, tags: Tags, walk: seq<string>)
    ensures ReadMember(c, tags, walk).Some? <==>
            && ParseInt(if "LO-Time" in tags then tags["LO-Time"] else "").Some?
            && c.decList(if "LO-IPAddr" in tags then tags["LO-IPAddr"] else "").Some?
            && c.decText(if "LO-PortRange" in tags then tags["LO-PortRange"] else "").Some?
  {
  }

  /** The tag is read as the announcement of u. */
  predicate TagFor(c: Codec, tags: Tags, key: string, u: Uuid) {
    key in tags && !("LO-" <= key) && c.decompress(key) == Some(u) && c.decApp(tags[key]).Some?
  }

  /** Whatever the tags are, an endpoint is read if and only if some tag outside the lookout's own
      announces it and decodes, and then with what one such tag says. */
  lemma {:induction false} AppsReadIff(c: Codec, tags: Tags, walk: seq<string>)
    requires forall k :: k in walk ==> k in tags
    ensures forall u :: u in ReadApps(c, tags, walk) <==> exists k :: k in walk && TagFor(c, tags, k, u)
    ensures forall u :: u in ReadApps(c, tags, walk) ==>
              exists k :: k in walk && TagFor(c, tags, k, u) && c.decApp(tags[k]).value == ReadApps(c, tags, walk)[u]
  {
    if walk != [] {
      var init, key := walk[..|walk| - 1], walk[|walk| - 1];
      assert walk == init + [key] && key in walk;
      AppsReadIff(c, tags, init);
      var was, now := ReadApps(c, tags, init), ReadApps(c, tags, walk);
      forall u | u in now
        ensures exists k :: k in walk && TagFor(c, tags, k, u) && c.decApp(tags[k]).value == now[u]
      {
        if TagFor(c, tags, key, u) {
          assert now[u] == c.decApp(tags[key]).value;
        } else {
          var k :| k in init && TagFor(c, tags, k, u) && c.decApp(tags[k]).value == was[u];
          assert k in walk;
        }
      }
      forall u, k | k in walk && TagFor(c, tags, k, u) ensures u in now {
        if k != key {
          assert k in init;
        }
      }
    }
  }

  /** After a pass over the members a lookout is known by the last well-formed announcement made
      under its uuid; malformed members neither add nor disturb anything. */
  lemma {:induction false} CollectKnows(known: map<string, LookoutInfo>, entries: seq<Option<(string, LookoutInfo)>>,
                                        i: nat)
    requires i < |entries| && entries[i].Some?
    requires forall j :: i < j < |entries| && entries[j].Some? ==> entries[j].value.0 != entries[i].value.0
    ensures entries[i].value.0 in Collect(known, entries)
    ensures Collect(known, entries)[entries[i].value.0] == entries[i].value.1
    decreases |entries|
  {
    var n := |entries| - 1;
    if i < n {
      CollectKnows(known, entries[..n], i);
    }
  }

  lemma {:induction false} CollectAddsOnly(known: map<string, LookoutInfo>,
                                           entries: seq<Option<(string, LookoutInfo)>>, u: string)
    requires forall j :: 0 <= j < |entries| && entries[j].Some? ==> entries[j].value.0 != u
    ensures u in Collect(known, entries) <==> u in known
    ensures u in known ==> Collect(known, entries)[u] == known[u]
  {
    if entries != [] {
      CollectAddsOnly(known, entries[..|entries| - 1], u);
    }
  }

  /** One more member adds its entry, or is skipped. */
  lemma EntriesNext(c: Codec, known: map<string, LookoutInfo>, members: seq<Member>, m: Member)
    ensures var rest := Collect(known, Entries(c, members));
            Collect(known, Entries(c, members + [m])) ==
            match ReadMember(c, m.tags, m.order)
            case None => rest
            case Some(info) => rest[Tag(m.tags, "LO-UUID") := info]
  {
    assert Entries(c, members + [m])[..|members|] == Entries(c, members);
  }

  // A whole pass

  /** What one lookout announced: itself, its endpoints, the order they were walked in, the time. */
  datatype Announcement = Announcement(id: Identity, eps: map<Uuid, Ep>, order: seq<Uuid>, now: int)

  ghost predicate Proper(a: Announcement) {
    Keyed(a.eps) && WalkOf(a.order, a.eps.Keys) && Int64(a.now)
  }

  function InfoOf(a: Announcement): LookoutInfo {
    LookoutInfo(a.id.addrs, Itoa(a.id.httpPort), PortText(a.id), AppsOf(a.eps), a.now)
  }

  /** The tags of a member that is not skipped are all walked. */
  ghost predicate WalkedMember(c: Codec, tags: Tags, m: Member) {
    m.tags == tags && (ReadMember(c, tags, m.order).Some? ==> WalkOf(m.order, tags.Keys))
  }

  /** The member's tags are this announcement, or, when there is none, they are malformed. */
  ghost predicate Announced(c: Codec, a: Option<Announcement>, m: Member) {
    && WalkedMember(c, m.tags, m)
    && match a
       case None => ReadMember(c, m.tags, m.order).None?
       case Some(x) => Proper(x) && m.tags == Announce(c, x.id, x.eps, x.order, x.now)
  }

  lemma AnnouncedEntry(c: Codec, a: Announcement, m: Member)
    requires Lawful(c) && Announced(c, Some(a), m)
    ensures Entry(c, m) == Some((a.id.uuid, InfoOf(a)))
  {
    IdentityTags(c, a.id, PutApps(c, a.eps, a.order), a.now);
    IdentityIsRead(c, a.id, m.tags, a.now, m.order);
    ReadBack(c, a.id, a.eps, a.order, a.now, m.order);
  }

  ghost predicate AllAnnounced(c: Codec, anns: seq<Option<Announcement>>, members: seq<Member>) {
    && |anns| == |members|
    && (forall i :: 0 <= i < |anns| ==> Announced(c, anns[i], members[i]))
    && (forall i, j :: 0 <= i < j < |anns| && anns[i].Some? && anns[j].Some? ==>
          anns[i].value.id.uuid != anns[j].value.id.uuid)
  }

  lemma EntriesAre(c: Codec, anns: seq<Option<Announcement>>, members: seq<Member>, i: nat)
    requires Lawful(c) && AllAnnounced(c, anns, members) && i < |anns|
    ensures Entries(c, members)[i] ==
              if anns[i].None? then None else Some((anns[i].value.id.uuid, InfoOf(anns[i].value)))
  {
    assert Announced(c, anns[i], members[i]);
    if anns[i].Some? {
      AnnouncedEntry(c, anns[i].value, members[i]);
    }
  }

  /** One pass over members that announce lookouts with distinct uuids, malformed ones among them,
      leaves each lookout known by exactly what it announced, and every other as it was. */
  lemma PassKnowsAll(c: Codec, known: map<string, LookoutInfo>, anns: seq<Option<Announcement>>, members: seq<Member>)
    requires Lawful(c) && AllAnnounced(c, anns, members)
    ensures var after := Collect(known, Entries(c, members));
            && (forall i :: 0 <= i < |anns| && anns[i].Some? ==>
                  && anns[i].value.id.uuid in after
                  && var a := anns[i].value; Learned(after[a.id.uuid], a.id, a.eps, a.now))
            && (forall u :: (forall i :: 0 <= i < |anns| && anns[i].Some? ==> anns[i].value.id.uuid != u) ==>
                  (u in after <==> u in known) && (u in known ==> after[u] == known[u]))
  {
    var entries := Entries(c, members);
    forall i | 0 <= i < |anns|
      ensures entries[i] == if anns[i].None? then None else Some((anns[i].value.id.uuid, InfoOf(anns[i].value)))
    {
      EntriesAre(c, anns, members, i);
    }
    forall i | 0 <= i < |anns| && anns[i].Some?
      ensures anns[i].value.id.uuid in Collect(known, entries)
      ensures var a := anns[i].value; Learned(Collect(known, entries)[a.id.uuid], a.id, a.eps, a.now)
    {
      CollectKnows(known, entries, i);
      ReadIsLearned(anns[i].value.id, anns[i].value.eps, anns[i].value.now);
    }
    forall u | forall i :: 0 <= i < |anns| && anns[i].Some? ==> anns[i].value.id.uuid != u
      ensures u in Collect(known, entries) <==> u in known
      ensures u in known ==> Collect(known, entries)[u] == known[u]
    {
      CollectAddsOnly(known, entries, u);
    }
  }
}
