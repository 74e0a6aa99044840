/**
 Whether the order of the events in one batch matters. Events may repeat, and
 different events may share a hash; an order is any permutation of the batch.
 */
module LogisticsOrder {
  import opened Wrappers
  import opened Logistics

  ghost predicate Reordering(a: seq<RawEvent>, b: seq<RawEvent>) {
    multiset(a) == multiset(b)
  }

  lemma SameMembers(a: seq<RawEvent>, b: seq<RawEvent>)
    requires Reordering(a, b)
    ensures forall r :: r in a <==> r in b
  {
    assert forall r :: r in a <==> r in multiset(a);
    assert forall r :: r in b <==> r in multiset(b);
  }

  predicate IsNew(o: Oracles, ship: Shipment, f: Fold, r: RawEvent) {
    EventHash(o, ship, r) !in f.seen
  }

  // ---------------------------------------------------------------------
  // Orders that put some events last
  // ---------------------------------------------------------------------

  function Part(raws: seq<RawEvent>, p: RawEvent -> bool, side: bool): seq<RawEvent> {
    if raws == [] then []
    else if p(raws[0]) == side then [raws[0]] + Part(raws[1..], p, side)
    else Part(raws[1..], p, side)
  }

  function LastOnes(raws: seq<RawEvent>, p: RawEvent -> bool): seq<RawEvent> {
    Part(raws, p, false) + Part(raws, p, true)
  }

  lemma {:induction false} PartsMakeWhole(raws: seq<RawEvent>, p: RawEvent -> bool)
    ensures multiset(Part(raws, p, false)) + multiset(Part(raws, p, true)) == multiset(raws)
    ensures forall side, r :: r in Part(raws, p, side) ==> p(r) == side
  {
    if raws != [] {
      PartsMakeWhole(raws[1..], p);
      assert raws == [raws[0]] + raws[1..];
    }
  }

  lemma LastOnesReorder(raws: seq<RawEvent>, p: RawEvent -> bool)
    ensures Reordering(raws, LastOnes(raws, p))
  {
    PartsMakeWhole(raws, p);
  }

  /** Up to `n` no event has `p`, from `n` on all have. */
  ghost predicate SplitAt(b: seq<RawEvent>, p: RawEvent -> bool, n: nat) {
    n <= |b| && forall i :: 0 <= i < |b| ==> (p(b[i]) <==> n <= i)
  }

  lemma LastOnesSplit(front: seq<RawEvent>, raws: seq<RawEvent>, p: RawEvent -> bool)
    requires forall r :: r in front ==> !p(r)
    ensures SplitAt(front + LastOnes(raws, p), p, |front| + |Part(raws, p, false)|)
  {
    PartsMakeWhole(raws, p);
    var lo, hi := front + Part(raws, p, false), Part(raws, p, true);
    assert front + LastOnes(raws, p) == lo + hi;
    forall i | 0 <= i < |lo + hi|
      ensures p((lo + hi)[i]) <==> |lo| <= i
    {
      if i < |lo| {
        assert lo[i] in front || lo[i] in Part(raws, p, false);
      } else {
        assert hi[i - |lo|] in hi;
      }
    }
  }

  /** A fresh event among the last ones shares its hash with last ones only. */
  lemma FreshAmongLast(o: Oracles, ship: Shipment, seen: set<string>, b: seq<RawEvent>, p: RawEvent -> bool, n: nat, i: nat, q: RawEvent)
    requires SplitAt(b, p, n) && i < |b| && p(b[i]) && Fresh(o, ship, seen, b, i)
    requires q in b && EventHash(o, ship, q) == EventHash(o, ship, b[i])
    ensures p(q)
  {
    var j :| 0 <= j < |b| && b[j] == q;
  }

  lemma FirstOfHash(o: Oracles, ship: Shipment, seen: set<string>, raws: seq<RawEvent>, q: RawEvent) returns (i: nat)
    requires q in raws && EventHash(o, ship, q) !in seen
    ensures i < |raws| && EventHash(o, ship, raws[i]) == EventHash(o, ship, q) && Fresh(o, ship, seen, raws, i)
  {
    var k :| 0 <= k < |raws| && raws[k] == q;
    i := 0;
    while EventHash(o, ship, raws[i]) != EventHash(o, ship, q)
      invariant 0 <= i <= k
      invariant forall j :: 0 <= j < i ==> EventHash(o, ship, raws[j]) != EventHash(o, ship, q)
      decreases k - i
    {
      i := i + 1;
    }
  }

  // ---------------------------------------------------------------------
  // Which events can decide
  // ---------------------------------------------------------------------

  /** With the events beyond `time` last, none of them is fresh if every new hash
      can be represented earlier. */
  lemma FreshNotLast(o: Oracles, ship: Shipment, f: Fold, b: seq<RawEvent>, p: RawEvent -> bool, n: nat, time: string, i: nat)
    requires SplitAt(b, p, n) && forall q :: p(q) <==> Later(Time(q), time)
    requires AllHaveEarly(o, ship, f, b, time) && i < |b| && Fresh(o, ship, f.seen, b, i)
    ensures !Later(Time(b[i]), time)
  {
    assert b[i] in b;
    var q :| q in b && EventHash(o, ship, q) == EventHash(o, ship, b[i]) && !Later(Time(q), time);
    var j :| 0 <= j < |b| && b[j] == q;
  }

  /** Some event with this hash is not later than `time`. */
  ghost predicate HasEarly(o: Oracles, ship: Shipment, raws: seq<RawEvent>, hash: string, time: string) {
    exists q :: q in raws && EventHash(o, ship, q) == hash && !Later(Time(q), time)
  }

  /** Every new hash of the batch can be represented by an event not later than `time`. */
  ghost predicate AllHaveEarly(o: Oracles, ship: Shipment, f: Fold, raws: seq<RawEvent>, time: string) {
    forall q :: q in raws && IsNew(o, ship, f, q) ==> HasEarly(o, ship, raws, EventHash(o, ship, q), time)
  }

  ghost predicate CanDecide(o: Oracles, ship: Shipment, f: Fold, raws: seq<RawEvent>, r: RawEvent) {
    r in raws && IsNew(o, ship, f, r) && Later(Time(r), f.time) && AllHaveEarly(o, ship, f, raws, Time(r))
  }

  ghost predicate CanStay(o: Oracles, ship: Shipment, f: Fold, raws: seq<RawEvent>) {
    AllHaveEarly(o, ship, f, raws, f.time)
  }

  /** The batch ends with the status and time of `r`. */
  ghost predicate EndsWith(o: Oracles, ship: Shipment, f: Fold, raws: seq<RawEvent>, r: RawEvent) {
    FoldAll(o, ship, f, raws).status == Normalized(o, r) && FoldAll(o, ship, f, raws).time == Time(r)
  }

  lemma EarlyReorder(o: Oracles, ship: Shipment, f: Fold, a: seq<RawEvent>, b: seq<RawEvent>, time: string)
    requires Reordering(a, b)
    ensures AllHaveEarly(o, ship, f, a, time) <==> AllHaveEarly(o, ship, f, b, time)
  {
    SameMembers(a, b);
    forall hash ensures HasEarly(o, ship, a, hash, time) <==> HasEarly(o, ship, b, hash, time) {
    }
  }

  /** A batch whose fresh events are all not later than `time` has early representatives. */
  lemma FreshEventsRepresent(o: Oracles, ship: Shipment, f: Fold, raws: seq<RawEvent>, time: string)
    requires NothingLater(o, ship, f.seen, raws, time)
    ensures AllHaveEarly(o, ship, f, raws, time)
  {
    forall q | q in raws && IsNew(o, ship, f, q)
      ensures HasEarly(o, ship, raws, EventHash(o, ship, q), time)
    {
      var i := FirstOfHash(o, ship, f.seen, raws, q);
      assert raws[i] in raws;
    }
  }

  /** Whatever the order, a batch ends with an event that can decide, or as it
      began, which it then can. */
  lemma EveryEnding(o: Oracles, ship: Shipment, f: Fold, a: seq<RawEvent>, b: seq<RawEvent>) returns (r: Option<RawEvent>)
    requires Reordering(a, b)
    ensures r.Some? ==> CanDecide(o, ship, f, a, r.value) && EndsWith(o, ship, f, b, r.value)
    ensures r.None? ==> CanStay(o, ship, f, a) && SameLatest(FoldAll(o, ship, f, b), f)
  {
    var k := LatestIsFirstGreatest(o, ship, f, b);
    SameMembers(a, b);
    if k.None? {
      FreshEventsRepresent(o, ship, f, b, f.time);
      EarlyReorder(o, ship, f, a, b, f.time);
      r := None;
    } else {
      r := Some(b[k.value]);
      FreshEventsRepresent(o, ship, f, b, Time(b[k.value]));
      EarlyReorder(o, ship, f, a, b, Time(b[k.value]));
    }
  }

  /** An event that can decide does so in some order: itself first, then the
      events not later than it, then the others. */
  lemma SomeOrderEndsWith(o: Oracles, ship: Shipment, f: Fold, a: seq<RawEvent>, r: RawEvent) returns (b: seq<RawEvent>)
    requires CanDecide(o, ship, f, a, r)
    ensures Reordering(a, b) && EndsWith(o, ship, f, b, r)
  {
    var m :| 0 <= m < |a| && a[m] == r;
    var rest := a[..m] + a[m + 1..];
    var p := (q: RawEvent) => Later(Time(q), Time(r));
    b := [r] + LastOnes(rest, p);
    assert a == a[..m] + [r] + a[m + 1..];
    LastOnesReorder(rest, p);
    LaterTotal(Time(r), Time(r));
    LastOnesSplit([r], rest, p);
    FirstOneDecides(o, ship, f, a, b, p, 1 + |Part(rest, p, false)|);
  }

  lemma FirstOneDecides(o: Oracles, ship: Shipment, f: Fold, a: seq<RawEvent>, b: seq<RawEvent>, p: RawEvent -> bool, n: nat)
    requires Reordering(a, b) && b != [] && CanDecide(o, ship, f, a, b[0])
    requires SplitAt(b, p, n) && forall q :: p(q) <==> Later(Time(q), Time(b[0]))
    ensures EndsWith(o, ship, f, b, b[0])
  {
    EarlyReorder(o, ship, f, a, b, Time(b[0]));
    forall i | 0 <= i < |b| && Fresh(o, ship, f.seen, b, i)
      ensures !Later(Time(b[i]), Time(b[0]))
    {
      FreshNotLast(o, ship, f, b, p, n, Time(b[0]), i);
    }
    assert Fresh(o, ship, f.seen, b, 0);
    var k := LatestIsFirstGreatest(o, ship, f, b);
  }

  /** A batch that can leave everything alone does so in some order. */
  lemma SomeOrderStays(o: Oracles, ship: Shipment, f: Fold, a: seq<RawEvent>) returns (b: seq<RawEvent>)
    requires CanStay(o, ship, f, a)
    ensures Reordering(a, b) && SameLatest(FoldAll(o, ship, f, b), f)
  {
    var p := (q: RawEvent) => Later(Time(q), f.time);
    b := LastOnes(a, p);
    LastOnesReorder(a, p);
    LastOnesSplit([], a, p);
    assert [] + b == b;
    EarlyReorder(o, ship, f, a, b, f.time);
    forall i | 0 <= i < |b| && Fresh(o, ship, f.seen, b, i)
      ensures !Later(Time(b[i]), f.time)
    {
      FreshNotLast(o, ship, f, b, p, |Part(a, p, false)|, f.time, i);
    }
    var k := LatestIsFirstGreatest(o, ship, f, b);
  }

  // ---------------------------------------------------------------------
  // The stored shipment
  // ---------------------------------------------------------------------

  ghost predicate ShipmentsAgree(o: Oracles, w: World, id: string, a: seq<RawEvent>, now: string)
    requires id in w.shipments
  {
    forall b :: Reordering(a, b) ==> Ingest(o, w, id, b, now).shipments == Ingest(o, w, id, a, now).shipments
  }

  /** Every event that can decide reports the current status, or some event always
      decides and all that can report the same status and time. */
  ghost predicate EndingsAgree(o: Oracles, ship: Shipment, f: Fold, a: seq<RawEvent>) {
    || (forall r :: CanDecide(o, ship, f, a, r) ==> Normalized(o, r) == f.status)
    || (!CanStay(o, ship, f, a)
        && forall q, r :: CanDecide(o, ship, f, a, q) && CanDecide(o, ship, f, a, r) ==>
             Normalized(o, q) == Normalized(o, r) && Time(q) == Time(r))
  }

  ghost predicate ShowsEnding(o: Oracles, ship: Shipment, t: Shipment, r: RawEvent, now: string) {
    t == if Normalized(o, r) == ship.currentStatus then ship
         else ship.(currentStatus := Normalized(o, r), lastEventAt := Some(Time(r)), lastSyncedAt := Some(now))
  }

  lemma EndingIsShown(o: Oracles, w: World, id: string, b: seq<RawEvent>, r: RawEvent, now: string)
    requires id in w.shipments
    requires var ship := w.shipments[id]; var f := StartFold(ship, HashesOf(w.events, ship.shipmentId));
             EndsWith(o, ship, f, b, r) && Later(Time(r), f.time)
    ensures ShowsEnding(o, w.shipments[id], Ingest(o, w, id, b, now).shipments[id], r, now)
  {
  }

  /** The shipment after a batch, whatever its events and hashes, is the same for
      every order of the batch exactly when the endings agree. */
  lemma ShipmentOrderIrrelevantExactly(o: Oracles, w: World, id: string, a: seq<RawEvent>, now: string)
    requires id in w.shipments
    ensures var ship := w.shipments[id]; var f := StartFold(ship, HashesOf(w.events, ship.shipmentId));
            ShipmentsAgree(o, w, id, a, now) <==> EndingsAgree(o, ship, f, a)
  {
    var ship := w.shipments[id];
    var f := StartFold(ship, HashesOf(w.events, ship.shipmentId));
    if EndingsAgree(o, ship, f, a) {
      forall b | Reordering(a, b)
        ensures Ingest(o, w, id, b, now).shipments == Ingest(o, w, id, a, now).shipments
      {
        AgreedEndings(o, w, id, a, b, now);
      }
    }
    if ShipmentsAgree(o, w, id, a, now) {
      AgreedShipments(o, w, id, a, now);
    }
  }

  lemma AgreedShipments(o: Oracles, w: World, id: string, a: seq<RawEvent>, now: string)
    requires id in w.shipments && ShipmentsAgree(o, w, id, a, now)
    ensures var ship := w.shipments[id]; EndingsAgree(o, ship, StartFold(ship, HashesOf(w.events, ship.shipmentId)), a)
  {
    var ship := w.shipments[id];
    var f := StartFold(ship, HashesOf(w.events, ship.shipmentId));
    if r :| CanDecide(o, ship, f, a, r) && Normalized(o, r) != f.status {
      if CanStay(o, ship, f, a) {
        StayOrMove(o, w, id, a, r, now);
      }
      DecidersShown(o, w, id, a, r, now);
      forall q | CanDecide(o, ship, f, a, q)
        ensures Normalized(o, q) == Normalized(o, r) && Time(q) == Time(r)
      {
        DecidersShown(o, w, id, a, q, now);
      }
    }
  }

  lemma AgreedEndings(o: Oracles, w: World, id: string, a: seq<RawEvent>, b: seq<RawEvent>, now: string)
    requires id in w.shipments && Reordering(a, b)
    requires var ship := w.shipments[id]; EndingsAgree(o, ship, StartFold(ship, HashesOf(w.events, ship.shipmentId)), a)
    ensures Ingest(o, w, id, b, now).shipments == Ingest(o, w, id, a, now).shipments
  {
    var ship := w.shipments[id];
    var f := StartFold(ship, HashesOf(w.events, ship.shipmentId));
    var q := EveryEnding(o, ship, f, a, a);
    var r := EveryEnding(o, ship, f, a, b);
    if q.Some? {
      EndingIsShown(o, w, id, a, q.value, now);
    }
    if r.Some? {
      EndingIsShown(o, w, id, b, r.value, now);
    }
    assert Ingest(o, w, id, b, now).shipments[id] == Ingest(o, w, id, a, now).shipments[id];
  }

  /** When the shipment does not depend on the order it shows every event that can decide. */
  lemma DecidersShown(o: Oracles, w: World, id: string, a: seq<RawEvent>, r: RawEvent, now: string)
    requires id in w.shipments && ShipmentsAgree(o, w, id, a, now)
    requires var ship := w.shipments[id]; CanDecide(o, ship, StartFold(ship, HashesOf(w.events, ship.shipmentId)), a, r)
    ensures ShowsEnding(o, w.shipments[id], Ingest(o, w, id, a, now).shipments[id], r, now)
  {
    var ship := w.shipments[id];
    var b := SomeOrderEndsWith(o, ship, StartFold(ship, HashesOf(w.events, ship.shipmentId)), a, r);
    EndingIsShown(o, w, id, b, r, now);
  }

  lemma StayOrMove(o: Oracles, w: World, id: string, a: seq<RawEvent>, r: RawEvent, now: string)
    requires id in w.shipments
    requires var ship := w.shipments[id]; var f := StartFold(ship, HashesOf(w.events, ship.shipmentId));
             CanStay(o, ship, f, a) && CanDecide(o, ship, f, a, r) && Normalized(o, r) != f.status
    ensures !ShipmentsAgree(o, w, id, a, now)
  {
    var ship := w.shipments[id];
    var b := SomeOrderStays(o, ship, StartFold(ship, HashesOf(w.events, ship.shipmentId)), a);
    assert Ingest(o, w, id, b, now).shipments[id] == ship;
    if ShipmentsAgree(o, w, id, a, now) {
      DecidersShown(o, w, id, a, r, now);
    }
  }

  // ---------------------------------------------------------------------
  // Status and time as the loop computes them
  // ---------------------------------------------------------------------

  /** `r` is new, later than the stored time, and no new event of the batch is later than it. */
  ghost predicate IsTop(o: Oracles, ship: Shipment, f: Fold, raws: seq<RawEvent>, r: RawEvent) {
    && r in raws && IsNew(o, ship, f, r) && Later(Time(r), f.time)
    && forall q :: q in raws && IsNew(o, ship, f, q) ==> !Later(Time(q), Time(r))
  }

  /** All latest events of the batch report the same status. */
  ghost predicate TopsAgree(o: Oracles, ship: Shipment, f: Fold, raws: seq<RawEvent>) {
    forall q, r :: IsTop(o, ship, f, raws, q) && IsTop(o, ship, f, raws, r) ==> Normalized(o, q) == Normalized(o, r)
  }

  /** Every event with the hash of `r` has its time. */
  ghost predicate OneTime(o: Oracles, ship: Shipment, raws: seq<RawEvent>, r: RawEvent) {
    forall q :: q in raws && EventHash(o, ship, q) == EventHash(o, ship, r) ==> Time(q) == Time(r)
  }

  /** There is no latest event, or one of them cannot be hidden by an older event
      with its hash. */
  ghost predicate TopNeverHidden(o: Oracles, ship: Shipment, f: Fold, raws: seq<RawEvent>) {
    || (forall r :: !IsTop(o, ship, f, raws, r))
    || (exists r :: IsTop(o, ship, f, raws, r) && OneTime(o, ship, raws, r))
  }

  ghost predicate LatestAgree(o: Oracles, ship: Shipment, f: Fold, a: seq<RawEvent>) {
    forall b :: Reordering(a, b) ==> SameLatest(FoldAll(o, ship, f, a), FoldAll(o, ship, f, b))
  }

  lemma TopExists(o: Oracles, ship: Shipment, f: Fold, raws: seq<RawEvent>, r: RawEvent) returns (top: RawEvent)
    requires r in raws && IsNew(o, ship, f, r) && Later(Time(r), f.time)
    ensures IsTop(o, ship, f, raws, top)
  {
    top := r;
    LaterTotal(Time(r), Time(r));
    for i := 0 to |raws|
      invariant top in raws && IsNew(o, ship, f, top) && Later(Time(top), f.time)
      invariant forall j :: 0 <= j < i && IsNew(o, ship, f, raws[j]) ==> !Later(Time(raws[j]), Time(top))
    {
      if IsNew(o, ship, f, raws[i]) && Later(Time(raws[i]), Time(top)) {
        TopRises(o, ship, f, raws, i, top);
        top := raws[i];
      }
    }
  }

  lemma TopRises(o: Oracles, ship: Shipment, f: Fold, raws: seq<RawEvent>, i: nat, top: RawEvent)
    requires i < |raws| && Later(Time(raws[i]), Time(top)) && Later(Time(top), f.time)
    requires forall j :: 0 <= j < i && IsNew(o, ship, f, raws[j]) ==> !Later(Time(raws[j]), Time(top))
    ensures Later(Time(raws[i]), f.time)
    ensures forall j :: 0 <= j <= i && IsNew(o, ship, f, raws[j]) ==> !Later(Time(raws[j]), Time(raws[i]))
  {
    LaterTransitive(Time(raws[i]), Time(top), f.time);
    forall j | 0 <= j <= i && IsNew(o, ship, f, raws[j])
      ensures !Later(Time(raws[j]), Time(raws[i]))
    {
      if Later(Time(raws[j]), Time(raws[i])) {
        LaterTotal(Time(raws[i]), Time(raws[i]));
        LaterTransitive(Time(raws[j]), Time(raws[i]), Time(top));
      }
    }
  }

  /** A latest event decides in some order. */
  lemma FrontTopWins(o: Oracles, ship: Shipment, f: Fold, a: seq<RawEvent>, r: RawEvent) returns (b: seq<RawEvent>)
    requires IsTop(o, ship, f, a, r)
    ensures Reordering(a, b) && EndsWith(o, ship, f, b, r)
  {
    forall q | q in a && IsNew(o, ship, f, q)
      ensures HasEarly(o, ship, a, EventHash(o, ship, q), Time(r))
    {
      assert !Later(Time(q), Time(r));
    }
    b := SomeOrderEndsWith(o, ship, f, a, r);
  }

  /** When a latest event cannot be hidden, every order ends with a latest event. */
  lemma UnhiddenTopStays(o: Oracles, ship: Shipment, f: Fold, a: seq<RawEvent>, b: seq<RawEvent>, top: RawEvent) returns (r: RawEvent)
    requires Reordering(a, b) && IsTop(o, ship, f, a, top) && OneTime(o, ship, a, top)
    ensures IsTop(o, ship, f, a, r) && Time(r) == Time(top) && EndsWith(o, ship, f, b, r)
  {
    var ending := EveryEnding(o, ship, f, a, b);
    assert HasEarly(o, ship, a, EventHash(o, ship, top), if ending.Some? then Time(ending.value) else f.time);
    if ending.Some? {
      r := ending.value;
      LaterTotal(Time(top), Time(r));
    } else {
      r := top;
    }
  }

  /** With the latest events last, none of those that can be hidden decides. */
  lemma HiddenTopLosesItsTime(o: Oracles, ship: Shipment, f: Fold, a: seq<RawEvent>, top: RawEvent) returns (b: seq<RawEvent>)
    requires IsTop(o, ship, f, a, top) && forall r :: IsTop(o, ship, f, a, r) ==> !OneTime(o, ship, a, r)
    ensures Reordering(a, b) && FoldAll(o, ship, f, b).time != Time(top)
  {
    var p := (q: RawEvent) => Time(q) == Time(top);
    b := LastOnes(a, p);
    LastOnesReorder(a, p);
    LastOnesSplit([], a, p);
    assert [] + b == b;
    SameMembers(a, b);
    LaterTotal(Time(top), Time(top));
    var k := LatestIsFirstGreatest(o, ship, f, b);
    if k.Some? && Time(b[k.value]) == Time(top) {
      var r := b[k.value];
      assert r in b && IsTop(o, ship, f, a, r);
      var q :| q in a && EventHash(o, ship, q) == EventHash(o, ship, r) && Time(q) != Time(r);
      FreshAmongLast(o, ship, f.seen, b, p, |Part(a, p, false)|, k.value, q);
    }
  }

  /** For every batch, status and time do not depend on the order of its events
      exactly when its latest events report one status and one of them cannot be
      hidden by an older event with its hash. */
  lemma OrderIrrelevantExactly(o: Oracles, ship: Shipment, f: Fold, a: seq<RawEvent>)
    ensures LatestAgree(o, ship, f, a) <==> TopsAgree(o, ship, f, a) && TopNeverHidden(o, ship, f, a)
  {
    if TopsAgree(o, ship, f, a) && TopNeverHidden(o, ship, f, a) {
      forall b | Reordering(a, b)
        ensures SameLatest(FoldAll(o, ship, f, a), FoldAll(o, ship, f, b))
      {
        AgreeingTopsDecide(o, ship, f, a, b);
      }
    }
    if LatestAgree(o, ship, f, a) {
      forall q, r | IsTop(o, ship, f, a, q) && IsTop(o, ship, f, a, r)
        ensures Normalized(o, q) == Normalized(o, r)
      {
        var b := FrontTopWins(o, ship, f, a, q);
        var c := FrontTopWins(o, ship, f, a, r);
      }
      if !TopNeverHidden(o, ship, f, a) {
        var top :| IsTop(o, ship, f, a, top);
        var b := FrontTopWins(o, ship, f, a, top);
        var c := HiddenTopLosesItsTime(o, ship, f, a, top);
        assert false;
      }
    }
  }

  lemma AgreeingTopsDecide(o: Oracles, ship: Shipment, f: Fold, a: seq<RawEvent>, b: seq<RawEvent>)
    requires Reordering(a, b) && TopsAgree(o, ship, f, a) && TopNeverHidden(o, ship, f, a)
    ensures SameLatest(FoldAll(o, ship, f, a), FoldAll(o, ship, f, b))
  {
    if top :| IsTop(o, ship, f, a, top) && OneTime(o, ship, a, top) {
      var q := UnhiddenTopStays(o, ship, f, a, a, top);
      var r := UnhiddenTopStays(o, ship, f, a, b, top);
    } else {
      var q := EveryEnding(o, ship, f, a, a);
      var r := EveryEnding(o, ship, f, a, b);
      if q.Some? {
        var top := TopExists(o, ship, f, a, q.value);
      }
      if r.Some? {
        var top := TopExists(o, ship, f, a, r.value);
      }
    }
  }

  predicate DistinctHashes(o: Oracles, ship: Shipment, raws: seq<RawEvent>) {
    forall i, j :: 0 <= i < j < |raws| ==> EventHash(o, ship, raws[i]) != EventHash(o, ship, raws[j])
  }

  /** With distinct hashes nothing is hidden, and contradiction is the only cause. */
  lemma OrderIrrelevant(o: Oracles, ship: Shipment, f: Fold, a: seq<RawEvent>)
    requires DistinctHashes(o, ship, a)
    ensures LatestAgree(o, ship, f, a) <==> TopsAgree(o, ship, f, a)
  {
    OrderIrrelevantExactly(o, ship, f, a);
    if r :| IsTop(o, ship, f, a, r) {
      forall q | q in a && EventHash(o, ship, q) == EventHash(o, ship, r)
        ensures Time(q) == Time(r)
      {
        var i :| 0 <= i < |a| && a[i] == q;
        var j :| 0 <= j < |a| && a[j] == r;
        assert i == j;
      }
      assert OneTime(o, ship, a, r);
    }
  }

  /** Two reports under one provider id, the older with another status: the latest
      events agree, yet the order decides which report counts. */
  lemma OrderMattersExample(o: Oracles, ship: Shipment) returns (older: RawEvent, newer: RawEvent)
    requires ship.currentStatus == "label_created" && ship.lastEventAt == None
    ensures var f := StartFold(ship, {});
            && TopsAgree(o, ship, f, [older, newer])
            && FoldAll(o, ship, f, [older, newer]).status == "picked_up"
            && FoldAll(o, ship, f, [newer, older]).status == "in_transit"
  {
    older := RawEvent(None, None, None, Some("picked_up"), Some("1"), None, None, Some("P"));
    newer := RawEvent(None, None, None, Some("in_transit"), Some("2"), None, None, Some("P"));
    var f := StartFold(ship, {});
    assert [older, newer][..1] == [older] && [newer, older][..1] == [newer];
    assert Later("1", "") && Later("2", "") && Later("2", "1");
    OneThenDuplicate(o, ship, f, older, newer);
    OneThenDuplicate(o, ship, f, newer, older);
  }

  lemma OneThenDuplicate(o: Oracles, ship: Shipment, f: Fold, a: RawEvent, b: RawEvent)
    requires IsNew(o, ship, f, a) && EventHash(o, ship, a) == EventHash(o, ship, b) && Later(Time(a), f.time)
    ensures FoldAll(o, ship, f, [a, b]).status == Normalized(o, a)
  {
    assert [a, b][..1] == [a] && [a][..0] == [];
    assert FoldAll(o, ship, f, [a]) == FoldOne(o, ship, f, a);
    assert FoldAll(o, ship, f, [a, b]) == FoldOne(o, ship, FoldOne(o, ship, f, a), b);
  }
}
