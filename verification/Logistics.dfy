/**
 Logistics event ingestion: each batch of raw provider events is normalised,
 given a hash, marked as duplicate or not, appended to the event log and folded
 into the shipment's latest status.

 The digest, the status normaliser and the clock are parameters: nothing is
 assumed about them, and in particular two different events may share a digest.
 */
module Logistics {
  import opened Wrappers

  // ---------------------------------------------------------------------
  // Timestamps are strings, compared character by character
  // ---------------------------------------------------------------------

  predicate Later(a: string, b: string) {
    if a == [] then false
    else if b == [] then true
    else if a[0] != b[0] then a[0] > b[0]
    else Later(a[1..], b[1..])
  }

  lemma {:induction false} LaterTransitive(a: string, b: string, c: string)
    requires Later(a, b) && Later(b, c)
    ensures Later(a, c)
  {
    if c != [] && a[0] == b[0] == c[0] {
      LaterTransitive(a[1..], b[1..], c[1..]);
    }
  }

  lemma {:induction false} LaterTotal(a: string, b: string)
    ensures Later(a, b) || a == b || Later(b, a)
    ensures !(Later(a, b) && Later(b, a)) && !Later(a, a)
  {
    if a != [] && b != [] {
      LaterTotal(a[1..], b[1..]);
      LaterTotal(a[1..], a[1..]);
      if a[0] == b[0] && a[1..] == b[1..] {
        assert a == [a[0]] + a[1..] && b == [b[0]] + b[1..];
      }
    } else if a != [] {
      LaterTotal(a[1..], a[1..]);
    }
  }

  // ---------------------------------------------------------------------
  // Data
  // ---------------------------------------------------------------------

  /** A raw event; None is a missing key, and the empty string counts as missing
      wherever the source tests truth. */
  datatype RawEvent = RawEvent(
    statusText: Option<string>,
    status: Option<string>,
    statusCode: Option<string>,
    normalizedStatus: Option<string>,
    eventTime: Option<string>,
    location: Option<string>,
    description: Option<string>,
    providerEventId: Option<string>)

  datatype LogisticsEvent = LogisticsEvent(
    shipmentId: string,
    normalized: string,
    raw: RawEvent,
    hash: string,
    isDuplicate: bool)

  datatype Shipment = Shipment(
    shipmentId: string,
    providerName: Option<string>,
    trackingNumber: string,
    currentStatus: string,
    lastEventAt: Option<string>,
    lastSyncedAt: Option<string>)

  /** What is digested: the provider's own id, or seven fields of the event. */
  datatype HashInput =
    | ByProviderId(shipmentId: string, providerEventId: string)
    | ByFields(fields: seq<string>)

  datatype Oracles = Oracles(digest: HashInput -> string, normalize: string -> string)

  function OrEmpty(s: Option<string>): string {
    match s
    case None => ""
    case Some(v) => v
  }

  function Or(a: Option<string>, b: string): string {
    if OrEmpty(a) != "" then OrEmpty(a) else b
  }

  /** The event's own normalised status, if it has one, and otherwise the normaliser's
      reading of the first of its three raw statuses that says anything. */
  function Normalized(o: Oracles, raw: RawEvent): (status: string)
    ensures OrEmpty(raw.normalizedStatus) != "" ==> raw.normalizedStatus == Some(status)
    ensures OrEmpty(raw.normalizedStatus) == "" ==>
              && (OrEmpty(raw.statusText) != "" ==> status == o.normalize(raw.statusText.value))
              && (OrEmpty(raw.statusText) == "" && OrEmpty(raw.status) != "" ==> status == o.normalize(raw.status.value))
              && (OrEmpty(raw.statusText) == "" && OrEmpty(raw.status) == "" ==> status == o.normalize(OrEmpty(raw.statusCode)))
  {
    var statusText := Or(raw.statusText, OrEmpty(raw.status));
    var statusCode := OrEmpty(raw.statusCode);
    Or(raw.normalizedStatus, o.normalize(if statusText != "" then statusText else statusCode))
  }

  function Truncate(s: string, n: nat): string {
    if |s| <= n then s else s[..n]
  }

  function HashInputOf(o: Oracles, ship: Shipment, raw: RawEvent): HashInput {
    if OrEmpty(raw.providerEventId) != "" then
      ByProviderId(ship.shipmentId, OrEmpty(raw.providerEventId))
    else
      ByFields([ship.shipmentId, OrEmpty(ship.providerName), ship.trackingNumber, Normalized(o, raw),
                OrEmpty(raw.eventTime), OrEmpty(raw.location), Truncate(OrEmpty(raw.description), 80)])
  }

  function EventHash(o: Oracles, ship: Shipment, raw: RawEvent): string {
    o.digest(HashInputOf(o, ship, raw))
  }

  function Time(raw: RawEvent): string {
    OrEmpty(raw.eventTime)
  }

  /** No two inputs share a digest. */
  ghost predicate CollisionFree(o: Oracles) {
    forall x, y :: o.digest(x) == o.digest(y) ==> x == y
  }

  /** The same report: by the provider's own id if both carry one, and otherwise by
      status, time, place and the first eighty characters of the description. */
  predicate SameReport(o: Oracles, a: RawEvent, b: RawEvent) {
    if OrEmpty(a.providerEventId) != "" || OrEmpty(b.providerEventId) != "" then
      OrEmpty(a.providerEventId) == OrEmpty(b.providerEventId)
    else
      && Normalized(o, a) == Normalized(o, b)
      && OrEmpty(a.eventTime) == OrEmpty(b.eventTime)
      && OrEmpty(a.location) == OrEmpty(b.location)
      && SameStart(OrEmpty(a.description), OrEmpty(b.description), 80)
  }

  /** Equal up to `n` characters. */
  predicate SameStart(a: string, b: string, n: nat) {
    (if |a| <= n then a else a[..n]) == (if |b| <= n then b else b[..n])
  }

  /** Two events of one shipment have the same hash exactly when they are the same report. */
  lemma SameHashExactly(o: Oracles, ship: Shipment, a: RawEvent, b: RawEvent)
    requires CollisionFree(o)
    ensures EventHash(o, ship, a) == EventHash(o, ship, b) <==> SameReport(o, a, b)
  {
    var x, y := HashInputOf(o, ship, a), HashInputOf(o, ship, b);
    assert EventHash(o, ship, a) == o.digest(x) && EventHash(o, ship, b) == o.digest(y);
    if x.ByFields? && y.ByFields? {
      assert x == y <==> forall i :: 0 <= i < 7 ==> x.fields[i] == y.fields[i];
    }
  }

  // ---------------------------------------------------------------------
  // One batch
  // ---------------------------------------------------------------------

  /** The loop's variables. */
  datatype Fold = Fold(seen: set<string>, stored: seq<LogisticsEvent>, status: string, time: string)

  function FoldOne(o: Oracles, ship: Shipment, f: Fold, raw: RawEvent): Fold {
    var hash, normalized := EventHash(o, ship, raw), Normalized(o, raw);
    var stored := f.stored + [LogisticsEvent(ship.shipmentId, normalized, raw, hash, hash in f.seen)];
    if hash in f.seen then f.(stored := stored)
    else if Later(Time(raw), f.time) then Fold(f.seen + {hash}, stored, normalized, Time(raw))
    else f.(seen := f.seen + {hash}, stored := stored)
  }

  function FoldAll(o: Oracles, ship: Shipment, f: Fold, raws: seq<RawEvent>): Fold {
    if raws == [] then f
    else FoldOne(o, ship, FoldAll(o, ship, f, raws[..|raws| - 1]), raws[|raws| - 1])
  }

  function HashesOf(events: seq<LogisticsEvent>, shipmentId: string): set<string> {
    set e | e in events && e.shipmentId == shipmentId :: e.hash
  }

  function StartFold(ship: Shipment, seen: set<string>): Fold {
    Fold(seen, [], ship.currentStatus, OrEmpty(ship.lastEventAt))
  }

  /** The shipment after the loop; it is written only when the status changed. */
  function Settle(ship: Shipment, status: string, time: string, now: string): Shipment {
    if status == ship.currentStatus then ship
    else ship.(currentStatus := status,
               lastEventAt := Some(if time != "" then time else now),
               lastSyncedAt := Some(now))
  }

  datatype World = World(shipments: map<string, Shipment>, events: seq<LogisticsEvent>)

  function Ingest(o: Oracles, w: World, id: string, raws: seq<RawEvent>, now: string): World
    requires id in w.shipments
  {
    var ship := w.shipments[id];
    var f := FoldAll(o, ship, StartFold(ship, HashesOf(w.events, ship.shipmentId)), raws);
    World(w.shipments[id := Settle(ship, f.status, f.time, now)], w.events + f.stored)
  }

  /** Stored shipments are filed under their own id. */
  predicate Filed(w: World) {
    forall id :: id in w.shipments ==> w.shipments[id].shipmentId == id
  }

  /** No other shipment changes; this one keeps its identity, and it is marked as
      synced now exactly when its status changed, and otherwise not touched at all. */
  ghost predicate OnlyUpdates(before: map<string, Shipment>, after: map<string, Shipment>, id: string, now: string)
    requires id in before
  {
    && after.Keys == before.Keys
    && (forall other :: other in before && other != id ==> after[other] == before[other])
    && after[id].shipmentId == before[id].shipmentId && after[id].providerName == before[id].providerName
    && after[id].trackingNumber == before[id].trackingNumber
    && (if after[id].currentStatus == before[id].currentStatus then after[id] == before[id]
        else after[id].lastSyncedAt == Some(now) && after[id].lastEventAt.Some?)
  }

  class IngestionService {
    var shipments: map<string, Shipment>
    var events: seq<LogisticsEvent>

    ghost function State(): World
      reads this
    {
      World(shipments, events)
    }

    constructor ()
      ensures State() == World(map[], [])
    {
      shipments, events := map[], [];
    }

    /** `ingest_tracking_number`: a new shipment under a fresh id. */
    method IngestTrackingNumber(id: string, providerName: Option<string>, trackingNumber: string)
      requires id !in shipments
      modifies this
      ensures State() == Track(old(State()), id, providerName, trackingNumber)
      ensures shipments == old(shipments)[id := Shipment(id, providerName, trackingNumber, "label_created", None, None)]
      ensures events == old(events)
    {
      shipments := shipments[id := Shipment(id, providerName, trackingNumber, "label_created", None, None)];
    }

    /** `sync_tracking_from_provider`: fails for an unknown shipment. */
    method SyncTracking(o: Oracles, id: string, raws: seq<RawEvent>, now: string)
      returns (r: Result<seq<LogisticsEvent>, string>)
      modifies this
      ensures r.Success? <==> id in old(shipments)
      ensures r.Failure? ==> State() == old(State())
      ensures r.Success? ==> State() == Ingest(o, old(State()), id, raws, now)
      ensures r.Success? ==> events == old(events) + r.value
      ensures r.Success? ==> OnlyUpdates(old(shipments), shipments, id, now)
    {
      if id !in shipments {
        return Failure("Shipment not found");
      }
      var stored := NormalizeAndStoreEvents(o, id, raws, now);
      return Success(stored);
    }

    method NormalizeAndStoreEvents(o: Oracles, id: string, raws: seq<RawEvent>, now: string)
      returns (stored: seq<LogisticsEvent>)
      requires id in shipments
      modifies this
      ensures State() == Ingest(o, old(State()), id, raws, now)
      ensures events == old(events) + stored
      ensures OnlyUpdates(old(shipments), shipments, id, now)
    {
      var shipment := shipments[id];
      var existingHashes := HashesOf(events, shipment.shipmentId);
      ghost var start := StartFold(shipment, existingHashes);
      stored := [];
      var latestStatus := shipment.currentStatus;
      var latestTime := OrEmpty(shipment.lastEventAt);
      for i := 0 to |raws|
        invariant Fold(existingHashes, stored, latestStatus, latestTime) == FoldAll(o, shipment, start, raws[..i])
        invariant events == old(events) + stored
        invariant shipments == old(shipments)
      {
        assert raws[..i + 1][..i] == raws[..i] && raws[..i + 1][i] == raws[i];
        var raw := raws[i];
        ghost var f := FoldAll(o, shipment, start, raws[..i]);
        var normalized := Normalized(o, raw);
        var hash := EventHash(o, shipment, raw);
        var isDup := hash in existingHashes;
        var evt := LogisticsEvent(shipment.shipmentId, normalized, raw, hash, isDup);
        events := events + [evt];
        if !isDup {
          existingHashes := existingHashes + {hash};
          if Time(raw) != "" && Later(Time(raw), latestTime) {
            latestStatus := normalized;
            latestTime := Time(raw);
          }
        }
        stored := stored + [evt];
        assert Fold(existingHashes, stored, latestStatus, latestTime) == FoldOne(o, shipment, f, raw);
      }
      assert raws[..|raws|] == raws;
      assert shipments == shipments[id := shipment];
      if latestStatus != shipment.currentStatus {
        shipment := shipment.(currentStatus := latestStatus,
                              lastEventAt := Some(if latestTime != "" then latestTime else now),
                              lastSyncedAt := Some(now));
        shipments := shipments[id := shipment];
      }
    }
  }

  function Track(w: World, id: string, providerName: Option<string>, trackingNumber: string): World {
    w.(shipments := w.shipments[id := Shipment(id, providerName, trackingNumber, "label_created", None, None)])
  }

  // ---------------------------------------------------------------------
  // Within one batch: the first fresh event with the greatest time wins
  // ---------------------------------------------------------------------

  /** Event `i` of the batch is new: its hash is neither known nor used before it. */
  predicate Fresh(o: Oracles, ship: Shipment, seen: set<string>, raws: seq<RawEvent>, i: nat)
    requires i < |raws|
  {
    && EventHash(o, ship, raws[i]) !in seen
    && forall j :: 0 <= j < i ==> EventHash(o, ship, raws[j]) != EventHash(o, ship, raws[i])
  }

  /** `k` is the first fresh event to reach the greatest time, and that time is
      beyond `time`. */
  ghost predicate Decides(o: Oracles, ship: Shipment, seen: set<string>, raws: seq<RawEvent>, time: string, k: nat)
    requires k < |raws|
  {
    && Fresh(o, ship, seen, raws, k)
    && Later(Time(raws[k]), time)
    && (forall i :: 0 <= i < |raws| && Fresh(o, ship, seen, raws, i) ==> !Later(Time(raws[i]), Time(raws[k])))
    && (forall i :: 0 <= i < k && Fresh(o, ship, seen, raws, i) ==> Later(Time(raws[k]), Time(raws[i])))
  }

  lemma FreshInPrefix(o: Oracles, ship: Shipment, seen: set<string>, raws: seq<RawEvent>, n: nat)
    requires n <= |raws|
    ensures forall i :: 0 <= i < n ==> (Fresh(o, ship, seen, raws[..n], i) <==> Fresh(o, ship, seen, raws, i))
  {
  }

  lemma {:induction false} SeenAfter(o: Oracles, ship: Shipment, f: Fold, raws: seq<RawEvent>)
    ensures forall h :: h in FoldAll(o, ship, f, raws).seen <==>
              h in f.seen || exists j :: 0 <= j < |raws| && EventHash(o, ship, raws[j]) == h
  {
    if raws != [] {
      var init := raws[..|raws| - 1];
      SeenAfter(o, ship, f, init);
      assert forall j :: 0 <= j < |init| ==> init[j] == raws[j];
    }
  }

  /** No fresh event of the batch is later than `time`. */
  ghost predicate NothingLater(o: Oracles, ship: Shipment, seen: set<string>, raws: seq<RawEvent>, time: string) {
    forall i :: 0 <= i < |raws| && Fresh(o, ship, seen, raws, i) ==> !Later(Time(raws[i]), time)
  }

  lemma {:induction false} LatestIsFirstGreatest(o: Oracles, ship: Shipment, f: Fold, raws: seq<RawEvent>)
    returns (winner: Option<nat>)
    ensures winner.None? ==>
              && FoldAll(o, ship, f, raws).status == f.status && FoldAll(o, ship, f, raws).time == f.time
              && NothingLater(o, ship, f.seen, raws, f.time)
    ensures winner.Some? ==>
              && winner.value < |raws|
              && Decides(o, ship, f.seen, raws, f.time, winner.value)
              && FoldAll(o, ship, f, raws).status == Normalized(o, raws[winner.value])
              && FoldAll(o, ship, f, raws).time == Time(raws[winner.value])
  {
    if raws == [] {
      return None;
    }
    var n := |raws| - 1;
    winner := LatestIsFirstGreatest(o, ship, f, raws[..n]);
    LastIsFresh(o, ship, f, raws);
    if winner.None? {
      NothingLaterInPrefix(o, ship, f.seen, raws, f.time);
      if Fresh(o, ship, f.seen, raws, n) && Later(Time(raws[n]), f.time) {
        DecidesFirst(o, ship, f, raws);
        winner := Some(n);
      }
    } else {
      DecidesNext(o, ship, f, raws, winner.value);
      if Fresh(o, ship, f.seen, raws, n) && Later(Time(raws[n]), Time(raws[winner.value])) {
        winner := Some(n);
      }
    }
  }

  lemma NothingLaterInPrefix(o: Oracles, ship: Shipment, seen: set<string>, raws: seq<RawEvent>, time: string)
    requires |raws| > 0 && NothingLater(o, ship, seen, raws[..|raws| - 1], time)
    ensures forall i :: 0 <= i < |raws| - 1 && Fresh(o, ship, seen, raws, i) ==> !Later(Time(raws[i]), time)
  {
    var init := raws[..|raws| - 1];
    FreshInPrefix(o, ship, seen, raws, |init|);
    assert forall i :: 0 <= i < |init| ==> init[i] == raws[i];
  }

  lemma LastIsFresh(o: Oracles, ship: Shipment, f: Fold, raws: seq<RawEvent>)
    requires |raws| > 0
    ensures Fresh(o, ship, f.seen, raws, |raws| - 1) <==>
            EventHash(o, ship, raws[|raws| - 1]) !in FoldAll(o, ship, f, raws[..|raws| - 1]).seen
  {
    var init := raws[..|raws| - 1];
    SeenAfter(o, ship, f, init);
    assert forall j :: 0 <= j < |init| ==> init[j] == raws[j];
  }

  lemma DecidesFirst(o: Oracles, ship: Shipment, f: Fold, raws: seq<RawEvent>)
    requires |raws| > 0
    requires forall i :: 0 <= i < |raws| - 1 && Fresh(o, ship, f.seen, raws, i) ==> !Later(Time(raws[i]), f.time)
    requires Fresh(o, ship, f.seen, raws, |raws| - 1) && Later(Time(raws[|raws| - 1]), f.time)
    ensures Decides(o, ship, f.seen, raws, f.time, |raws| - 1)
  {
    var last := Time(raws[|raws| - 1]);
    forall i | 0 <= i < |raws| - 1 && Fresh(o, ship, f.seen, raws, i)
      ensures Later(last, Time(raws[i]))
    {
      LaterTotal(Time(raws[i]), f.time);
      if Later(f.time, Time(raws[i])) {
        LaterTransitive(last, f.time, Time(raws[i]));
      }
    }
    forall i | 0 <= i < |raws| && Fresh(o, ship, f.seen, raws, i)
      ensures !Later(Time(raws[i]), last)
    {
      LaterTotal(Time(raws[i]), last);
    }
  }

  lemma DecidesInPrefix(o: Oracles, ship: Shipment, f: Fold, raws: seq<RawEvent>, k: nat)
    requires k < |raws| - 1
    requires Decides(o, ship, f.seen, raws[..|raws| - 1], f.time, k)
    ensures Fresh(o, ship, f.seen, raws, k) && Later(Time(raws[k]), f.time)
    ensures forall i :: 0 <= i < |raws| - 1 && Fresh(o, ship, f.seen, raws, i) ==> !Later(Time(raws[i]), Time(raws[k]))
    ensures forall i :: 0 <= i < k && Fresh(o, ship, f.seen, raws, i) ==> Later(Time(raws[k]), Time(raws[i]))
  {
    var init := raws[..|raws| - 1];
    FreshInPrefix(o, ship, f.seen, raws, |init|);
    forall i | 0 <= i < |init|
      ensures init[i] == raws[i] && (Fresh(o, ship, f.seen, init, i) <==> Fresh(o, ship, f.seen, raws, i))
    {
    }
  }

  lemma DecidesNext(o: Oracles, ship: Shipment, f: Fold, raws: seq<RawEvent>, k: nat)
    requires k < |raws| - 1
    requires Decides(o, ship, f.seen, raws[..|raws| - 1], f.time, k)
    ensures var n := |raws| - 1;
            if Fresh(o, ship, f.seen, raws, n) && Later(Time(raws[n]), Time(raws[k]))
            then Decides(o, ship, f.seen, raws, f.time, n)
            else Decides(o, ship, f.seen, raws, f.time, k)
  {
    var n := |raws| - 1;
    DecidesInPrefix(o, ship, f, raws, k);
    if Fresh(o, ship, f.seen, raws, n) && Later(Time(raws[n]), Time(raws[k])) {
      LaterTransitive(Time(raws[n]), Time(raws[k]), f.time);
      forall i | 0 <= i < |raws| && Fresh(o, ship, f.seen, raws, i)
        ensures !Later(Time(raws[i]), Time(raws[n]))
        ensures i < n ==> Later(Time(raws[n]), Time(raws[i]))
      {
        LaterTotal(Time(raws[i]), Time(raws[n]));
        if i < n {
          LaterTotal(Time(raws[i]), Time(raws[k]));
          if Later(Time(raws[k]), Time(raws[i])) {
            LaterTransitive(Time(raws[n]), Time(raws[k]), Time(raws[i]));
          }
        }
      }
    }
  }

  // ---------------------------------------------------------------------
  // Runs
  // ---------------------------------------------------------------------

  datatype Op =
    | TrackNumber(id: string, providerName: Option<string>, trackingNumber: string)
    | Sync(id: string, raws: seq<RawEvent>, now: string)

  function Do(o: Oracles, w: World, op: Op): World {
    match op
    case TrackNumber(id, providerName, trackingNumber) =>
      if id in w.shipments then w else Track(w, id, providerName, trackingNumber)
    case Sync(id, raws, now) =>
      if id in w.shipments then Ingest(o, w, id, raws, now) else w
  }

  function Run(o: Oracles, w: World, ops: seq<Op>): World {
    if ops == [] then w else Do(o, Run(o, w, ops[..|ops| - 1]), ops[|ops| - 1])
  }

  /** The fields that a digest may depend on. */
  predicate SameIdentity(a: Shipment, b: Shipment) {
    a.shipmentId == b.shipmentId && a.providerName == b.providerName && a.trackingNumber == b.trackingNumber
  }

  predicate NotEarlier(a: string, b: string) {
    a == b || Later(a, b)
  }

  /** The clock is never read for `last_event_at`: a changed status comes from an
      event with a time, later than the stored one. */
  lemma ChangedStatusHasLaterTime(o: Oracles, ship: Shipment, seen: set<string>, raws: seq<RawEvent>, now: string)
    ensures var f := FoldAll(o, ship, StartFold(ship, seen), raws);
            f.status != ship.currentStatus ==>
              && f.time != ""
              && Settle(ship, f.status, f.time, now).lastEventAt == Some(f.time)
              && Later(f.time, OrEmpty(ship.lastEventAt))
  {
    var k := LatestIsFirstGreatest(o, ship, StartFold(ship, seen), raws);
  }

  ghost predicate SameLatest(f: Fold, g: Fold) {
    f.status == g.status && f.time == g.time
  }

  ghost predicate Grows(w: World, w': World) {
    && w.events <= w'.events
    && forall id :: id in w.shipments ==>
         && id in w'.shipments
         && SameIdentity(w.shipments[id], w'.shipments[id])
         && NotEarlier(OrEmpty(w'.shipments[id].lastEventAt), OrEmpty(w.shipments[id].lastEventAt))
  }

  lemma StepGrows(o: Oracles, w: World, op: Op)
    ensures Grows(w, Do(o, w, op))
  {
    if op.Sync? && op.id in w.shipments {
      var ship := w.shipments[op.id];
      ChangedStatusHasLaterTime(o, ship, HashesOf(w.events, ship.shipmentId), op.raws, op.now);
    }
  }

  lemma GrowsTransitive(a: World, b: World, c: World)
    requires Grows(a, b) && Grows(b, c)
    ensures Grows(a, c)
  {
    forall id | id in a.shipments
      ensures NotEarlier(OrEmpty(c.shipments[id].lastEventAt), OrEmpty(a.shipments[id].lastEventAt))
    {
      var x, y, z := OrEmpty(a.shipments[id].lastEventAt), OrEmpty(b.shipments[id].lastEventAt), OrEmpty(c.shipments[id].lastEventAt);
      if Later(z, y) && Later(y, x) {
        LaterTransitive(z, y, x);
      }
    }
  }

  /** Over any run, `last_event_at` never moves back, no stored event changes or
      disappears, and the identity of a shipment is fixed. */
  lemma {:induction false} RunGrows(o: Oracles, w: World, ops: seq<Op>)
    ensures Grows(w, Run(o, w, ops))
  {
    if ops != [] {
      var init := ops[..|ops| - 1];
      RunGrows(o, w, init);
      StepGrows(o, Run(o, w, init), ops[|ops| - 1]);
      GrowsTransitive(w, Run(o, w, init), Run(o, w, ops));
    }
  }

  // ---------------------------------------------------------------------
  // The log: one original per hash, namely the earliest
  // ---------------------------------------------------------------------

  predicate SameKey(a: LogisticsEvent, b: LogisticsEvent) {
    a.shipmentId == b.shipmentId && a.hash == b.hash
  }

  ghost predicate DuplicatesMarked(events: seq<LogisticsEvent>) {
    forall i :: 0 <= i < |events| ==>
      (events[i].isDuplicate <==> exists j :: 0 <= j < i && SameKey(events[j], events[i]))
  }

  /** Hashes are those of the stored raw events, computed with the shipment as it is now. */
  ghost predicate HashesCurrent(o: Oracles, w: World) {
    forall e :: e in w.events ==>
      e.shipmentId in w.shipments && e.hash == EventHash(o, w.shipments[e.shipmentId], e.raw)
  }

  ghost predicate LogValid(o: Oracles, w: World) {
    Filed(w) && HashesCurrent(o, w) && DuplicatesMarked(w.events)
  }

  /** Every raw event is stored once, in order, and marked by what was seen before it. */
  ghost predicate StoredAs(o: Oracles, ship: Shipment, seen: set<string>, raws: seq<RawEvent>, stored: seq<LogisticsEvent>) {
    && |stored| == |raws|
    && forall i {:trigger stored[i]} :: 0 <= i < |raws| ==>
         && stored[i].raw == raws[i]
         && stored[i].shipmentId == ship.shipmentId
         && stored[i].hash == EventHash(o, ship, raws[i])
         && (stored[i].isDuplicate <==> !Fresh(o, ship, seen, raws, i))
  }

  lemma PrefixStoredAs(o: Oracles, ship: Shipment, seen: set<string>, raws: seq<RawEvent>, stored: seq<LogisticsEvent>, last: LogisticsEvent)
    requires raws != [] && StoredAs(o, ship, seen, raws[..|raws| - 1], stored)
    requires last == LogisticsEvent(ship.shipmentId, Normalized(o, raws[|raws| - 1]), raws[|raws| - 1],
                                    EventHash(o, ship, raws[|raws| - 1]), !Fresh(o, ship, seen, raws, |raws| - 1))
    ensures StoredAs(o, ship, seen, raws, stored + [last])
  {
    var n := |raws| - 1;
    FreshInPrefix(o, ship, seen, raws, n);
    forall i | 0 <= i < n
      ensures stored[i].raw == raws[i] && (stored[i].isDuplicate <==> !Fresh(o, ship, seen, raws, i))
      ensures stored[i].shipmentId == ship.shipmentId && stored[i].hash == EventHash(o, ship, raws[i])
    {
      assert raws[..n][i] == raws[i];
    }
  }

  lemma {:induction false} StoredOnce(o: Oracles, ship: Shipment, seen: set<string>, raws: seq<RawEvent>)
    ensures StoredAs(o, ship, seen, raws, FoldAll(o, ship, StartFold(ship, seen), raws).stored)
  {
    if raws != [] {
      var init := raws[..|raws| - 1];
      StoredOnce(o, ship, seen, init);
      var f, g := FoldAll(o, ship, StartFold(ship, seen), init), FoldAll(o, ship, StartFold(ship, seen), raws);
      LastIsFresh(o, ship, StartFold(ship, seen), raws);
      PrefixStoredAs(o, ship, seen, raws, f.stored, g.stored[|init|]);
      assert g.stored == f.stored + [g.stored[|init|]];
    }
  }

  lemma OldMarksStay(events: seq<LogisticsEvent>, added: seq<LogisticsEvent>, k: nat)
    requires DuplicatesMarked(events) && k < |events|
    ensures (events + added)[k].isDuplicate <==> exists j :: 0 <= j < k && SameKey((events + added)[j], (events + added)[k])
  {
    var all := events + added;
    assert forall j {:trigger all[j]} :: 0 <= j <= k ==> all[j] == events[j];
    if j :| 0 <= j < k && SameKey(events[j], events[k]) {
      assert SameKey(all[j], all[k]);
    }
  }

  lemma NewMarksFit(o: Oracles, events: seq<LogisticsEvent>, ship: Shipment, raws: seq<RawEvent>, added: seq<LogisticsEvent>, i: nat)
    requires StoredAs(o, ship, HashesOf(events, ship.shipmentId), raws, added) && i < |added|
    ensures added[i].isDuplicate <==>
              exists j :: 0 <= j < |events| + i && SameKey((events + added)[j], added[i])
  {
    var all, n := events + added, |events|;
    if added[i].hash in HashesOf(events, ship.shipmentId) {
      var e :| e in events && e.shipmentId == ship.shipmentId && e.hash == added[i].hash;
      var j :| 0 <= j < n && events[j] == e;
      assert SameKey(all[j], added[i]);
    } else if added[i].isDuplicate {
      var j :| 0 <= j < i && EventHash(o, ship, raws[j]) == added[i].hash;
      assert all[n + j] == added[j];
      assert SameKey(all[n + j], added[i]);
    } else {
      forall j | 0 <= j < n + i
        ensures !SameKey(all[j], added[i])
      {
        assert if j < n then all[j] in events else all[j] == added[j - n];
      }
    }
  }

  lemma AppendKeepsMarks(o: Oracles, events: seq<LogisticsEvent>, ship: Shipment, raws: seq<RawEvent>, added: seq<LogisticsEvent>)
    requires DuplicatesMarked(events)
    requires StoredAs(o, ship, HashesOf(events, ship.shipmentId), raws, added)
    ensures DuplicatesMarked(events + added)
  {
    var all, n := events + added, |events|;
    forall k | 0 <= k < |all|
      ensures all[k].isDuplicate <==> exists j :: 0 <= j < k && SameKey(all[j], all[k])
    {
      if k < n {
        OldMarksStay(events, added, k);
      } else {
        NewMarksFit(o, events, ship, raws, added, k - n);
      }
    }
  }

  lemma IngestKeepsLogValid(o: Oracles, w: World, id: string, raws: seq<RawEvent>, now: string)
    requires LogValid(o, w) && id in w.shipments
    ensures LogValid(o, Ingest(o, w, id, raws, now))
  {
    var ship, seen := w.shipments[id], HashesOf(w.events, id);
    var stored := FoldAll(o, ship, StartFold(ship, seen), raws).stored;
    StoredOnce(o, ship, seen, raws);
    AppendKeepsMarks(o, w.events, ship, raws, stored);
    var w' := Ingest(o, w, id, raws, now);
    forall e | e in w'.events
      ensures e.shipmentId in w'.shipments && e.hash == EventHash(o, w'.shipments[e.shipmentId], e.raw)
    {
      if e !in w.events {
        var i :| 0 <= i < |stored| && stored[i] == e;
      }
    }
  }

  lemma {:induction false} LogAlwaysValid(o: Oracles, w: World, ops: seq<Op>)
    requires LogValid(o, w)
    ensures LogValid(o, Run(o, w, ops))
  {
    if ops != [] {
      var init, op := ops[..|ops| - 1], ops[|ops| - 1];
      LogAlwaysValid(o, w, init);
      if op.Sync? && op.id in Run(o, w, init).shipments {
        IngestKeepsLogValid(o, Run(o, w, init), op.id, op.raws, op.now);
      }
    }
  }

  /** Over any run, with a collision-free digest, an event is marked as a duplicate
      exactly when an earlier event of its shipment is the same report. */
  lemma DuplicatesAreRepeatsExactly(o: Oracles, ops: seq<Op>, i: nat)
    requires CollisionFree(o) && i < |Run(o, World(map[], []), ops).events|
    ensures var events := Run(o, World(map[], []), ops).events;
            events[i].isDuplicate <==>
            exists j :: 0 <= j < i && events[j].shipmentId == events[i].shipmentId && SameReport(o, events[j].raw, events[i].raw)
  {
    var w := Run(o, World(map[], []), ops);
    LogAlwaysValid(o, World(map[], []), ops);
    forall j | 0 <= j < i
      ensures SameKey(w.events[j], w.events[i]) <==>
              w.events[j].shipmentId == w.events[i].shipmentId && SameReport(o, w.events[j].raw, w.events[i].raw)
    {
      assert w.events[j] in w.events && w.events[i] in w.events;
      SameHashExactly(o, w.shipments[w.events[i].shipmentId], w.events[j].raw, w.events[i].raw);
    }
  }

  /** Within one batch, with a collision-free digest, an event is new exactly when
      its report is neither stored nor earlier in the batch. */
  lemma FreshReportsExactly(o: Oracles, ops: seq<Op>, id: string, raws: seq<RawEvent>, i: nat)
    requires CollisionFree(o) && id in Run(o, World(map[], []), ops).shipments && i < |raws|
    ensures var w := Run(o, World(map[], []), ops);
            Fresh(o, w.shipments[id], HashesOf(w.events, id), raws, i) <==>
            && (forall e :: e in w.events && e.shipmentId == id ==> !SameReport(o, e.raw, raws[i]))
            && (forall j :: 0 <= j < i ==> !SameReport(o, raws[j], raws[i]))
  {
    var w := Run(o, World(map[], []), ops);
    LogAlwaysValid(o, World(map[], []), ops);
    forall e | e in w.events && e.shipmentId == id
      ensures e.hash == EventHash(o, w.shipments[id], raws[i]) <==> SameReport(o, e.raw, raws[i])
    {
      SameHashExactly(o, w.shipments[id], e.raw, raws[i]);
    }
    forall j | 0 <= j < i
      ensures EventHash(o, w.shipments[id], raws[j]) == EventHash(o, w.shipments[id], raws[i]) <==> SameReport(o, raws[j], raws[i])
    {
      SameHashExactly(o, w.shipments[id], raws[j], raws[i]);
    }
  }

  /** In a valid log every key has exactly one event that is not a duplicate,
      and it is the first one stored. */
  lemma ExactlyOneOriginal(events: seq<LogisticsEvent>, i: nat) returns (k: nat)
    requires DuplicatesMarked(events) && i < |events|
    ensures k <= i && SameKey(events[k], events[i])
    ensures forall j :: 0 <= j < |events| && SameKey(events[j], events[i]) ==>
              k <= j && (events[j].isDuplicate <==> j != k)
  {
    k := i;
    while events[k].isDuplicate
      invariant 0 <= k <= i && SameKey(events[k], events[i])
      decreases k
    {
      var j :| 0 <= j < k && SameKey(events[j], events[k]);
      k := j;
    }
  }

  // ---------------------------------------------------------------------
  // Replay
  // ---------------------------------------------------------------------

  lemma {:induction false} KnownEventsFoldAway(o: Oracles, ship: Shipment, f: Fold, raws: seq<RawEvent>)
    requires forall i :: 0 <= i < |raws| ==> EventHash(o, ship, raws[i]) in f.seen
    ensures SameLatest(FoldAll(o, ship, f, raws), f) && FoldAll(o, ship, f, raws).seen == f.seen
  {
    if raws != [] {
      KnownEventsFoldAway(o, ship, f, raws[..|raws| - 1]);
    }
  }

  ghost predicate StoredFor(events: seq<LogisticsEvent>, id: string, raw: RawEvent) {
    exists e :: e in events && e.shipmentId == id && e.raw == raw
  }

  /** From position `n` on, the log holds one duplicate per raw event. */
  ghost predicate AllDuplicates(events: seq<LogisticsEvent>, n: nat, raws: seq<RawEvent>) {
    && |events| == n + |raws|
    && forall k :: n <= k < |events| ==> events[k].isDuplicate && events[k].raw == raws[k - n]
  }

  lemma StoredHashIsKnown(o: Oracles, w0: World, w: World, id: string, raw: RawEvent)
    requires LogValid(o, w) && w0.events <= w.events && StoredFor(w0.events, id, raw)
    ensures id in w.shipments && EventHash(o, w.shipments[id], raw) in HashesOf(w.events, id)
  {
    var e :| e in w0.events && e.shipmentId == id && e.raw == raw;
    assert e in w.events;
  }

  /** A batch of known events is stored as duplicates and changes no shipment. */
  lemma KnownBatchIsHarmless(o: Oracles, w: World, id: string, raws: seq<RawEvent>, now: string)
    requires Filed(w) && id in w.shipments
    requires forall i :: 0 <= i < |raws| ==> EventHash(o, w.shipments[id], raws[i]) in HashesOf(w.events, id)
    ensures Ingest(o, w, id, raws, now).shipments == w.shipments
    ensures AllDuplicates(Ingest(o, w, id, raws, now).events, |w.events|, raws)
  {
    var ship, seen := w.shipments[id], HashesOf(w.events, id);
    KnownEventsFoldAway(o, ship, StartFold(ship, seen), raws);
    StoredOnce(o, ship, seen, raws);
  }

  /** Events stored for a shipment at some point of a run may be sent again in
      any order, any subset and any number of times, after any later operations:
      every copy is stored as a duplicate and no shipment changes. */
  lemma ReplayIsHarmless(o: Oracles, earlier: seq<Op>, later: seq<Op>, id: string, raws: seq<RawEvent>, now: string)
    requires id in Run(o, World(map[], []), earlier).shipments
    requires forall i :: 0 <= i < |raws| ==> StoredFor(Run(o, World(map[], []), earlier).events, id, raws[i])
    ensures var w := Run(o, Run(o, World(map[], []), earlier), later);
            && id in w.shipments
            && Ingest(o, w, id, raws, now).shipments == w.shipments
            && AllDuplicates(Ingest(o, w, id, raws, now).events, |w.events|, raws)
  {
    var w0 := Run(o, World(map[], []), earlier);
    var w := Run(o, w0, later);
    LogAlwaysValid(o, World(map[], []), earlier);
    LogAlwaysValid(o, w0, later);
    RunGrows(o, w0, later);
    forall i | 0 <= i < |raws|
      ensures EventHash(o, w.shipments[id], raws[i]) in HashesOf(w.events, id)
    {
      StoredHashIsKnown(o, w0, w, id, raws[i]);
    }
    KnownBatchIsHarmless(o, w, id, raws, now);
  }
}
