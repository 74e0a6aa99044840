/**
 Whether two ingestion calls agree with one call that gets both batches.
 */
module LogisticsSplit {
  import opened Wrappers
  import opened Logistics

  /** `k` is the event of the batch that decides against `time`, if any does. */
  ghost predicate DeciderOf(o: Oracles, ship: Shipment, seen: set<string>, raws: seq<RawEvent>, time: string, k: Option<nat>) {
    match k
    case None => NothingLater(o, ship, seen, raws, time)
    case Some(i) => i < |raws| && Decides(o, ship, seen, raws, time, i)
  }

  function HashesIn(o: Oracles, ship: Shipment, raws: seq<RawEvent>): set<string> {
    set r | r in raws :: EventHash(o, ship, r)
  }

  lemma {:induction false} FoldConcat(o: Oracles, ship: Shipment, f: Fold, a: seq<RawEvent>, b: seq<RawEvent>)
    ensures FoldAll(o, ship, f, a + b) == FoldAll(o, ship, FoldAll(o, ship, f, a), b)
  {
    if b == [] {
      assert a + b == a;
    } else {
      assert (a + b)[..|a + b| - 1] == a + b[..|b| - 1];
      FoldConcat(o, ship, f, a, b[..|b| - 1]);
    }
  }

  lemma FoldSees(o: Oracles, ship: Shipment, f: Fold, raws: seq<RawEvent>)
    ensures FoldAll(o, ship, f, raws).seen == f.seen + HashesIn(o, ship, raws)
  {
    SeenAfter(o, ship, f, raws);
    forall h ensures h in HashesIn(o, ship, raws) <==> exists j :: 0 <= j < |raws| && EventHash(o, ship, raws[j]) == h {
      if h in HashesIn(o, ship, raws) {
        var r :| r in raws && EventHash(o, ship, r) == h;
        var j :| 0 <= j < |raws| && raws[j] == r;
      }
    }
  }

  /** The hashes in memory after the loop are those a later call reads back. */
  lemma SeenIsStored(o: Oracles, w: World, id: string, raws: seq<RawEvent>, now: string)
    requires Filed(w) && id in w.shipments
    ensures HashesOf(Ingest(o, w, id, raws, now).events, id) == HashesOf(w.events, id) + HashesIn(o, w.shipments[id], raws)
  {
    var ship, seen := w.shipments[id], HashesOf(w.events, id);
    var stored := FoldAll(o, ship, StartFold(ship, seen), raws).stored;
    StoredOnce(o, ship, seen, raws);
    var events := Ingest(o, w, id, raws, now).events;
    forall h | h in seen + HashesIn(o, ship, raws)
      ensures h in HashesOf(events, id)
    {
      if h in seen {
        var e :| e in w.events && e.shipmentId == id && e.hash == h;
        assert e in events;
      } else {
        var r :| r in raws && EventHash(o, ship, r) == h;
        var j :| 0 <= j < |raws| && raws[j] == r;
        assert stored[j] in events;
      }
    }
    forall e | e in events && e.shipmentId == id
      ensures e.hash in seen + HashesIn(o, ship, raws)
    {
      if e !in w.events {
        var j :| 0 <= j < |stored| && stored[j] == e;
        assert raws[j] in raws;
      }
    }
  }

  lemma SameDecider(o: Oracles, s: Shipment, t: Shipment, seen: set<string>, raws: seq<RawEvent>, time: string, k: Option<nat>)
    requires SameIdentity(s, t)
    ensures DeciderOf(o, s, seen, raws, time, k) <==> DeciderOf(o, t, seen, raws, time, k)
  {
    forall i | 0 <= i < |raws|
      ensures Fresh(o, s, seen, raws, i) <==> Fresh(o, t, seen, raws, i)
    {
    }
  }

  /** Folding from the same or a later time gives the same winner if it is beyond
      that time too, and otherwise none. */
  lemma LaterTimeDecides(o: Oracles, ship: Shipment, f: Fold, time: string, b: seq<RawEvent>, k: Option<nat>)
    requires NotEarlier(f.time, time) && DeciderOf(o, ship, f.seen, b, time, k)
    ensures var g := FoldAll(o, ship, f, b);
            if k.Some? && Later(Time(b[k.value]), f.time)
            then g.status == Normalized(o, b[k.value]) && g.time == Time(b[k.value])
            else SameLatest(g, f)
  {
    var j := LatestIsFirstGreatest(o, ship, f, b);
    if j.Some? {
      var t := Time(b[j.value]);
      if f.time != time {
        LaterTransitive(t, f.time, time);
      }
      if k.Some? {
        LaterTotal(Time(b[k.value]), t);
        LaterTotal(Time(b[k.value]), f.time);
        assert Time(b[k.value]) == t;
        assert j.value == k.value;
      }
    }
  }

  /** A call shows its deciding event exactly when that reports another status. */
  ghost predicate Shows(o: Oracles, before: Shipment, after: Shipment, raws: seq<RawEvent>, k: Option<nat>)
    requires k.Some? ==> k.value < |raws|
  {
    if k.Some? && Normalized(o, raws[k.value]) != before.currentStatus
    then after.currentStatus == Normalized(o, raws[k.value]) && after.lastEventAt == Some(Time(raws[k.value]))
    else after.currentStatus == before.currentStatus && after.lastEventAt == before.lastEventAt
  }

  lemma CallShowsDecider(o: Oracles, w: World, id: string, raws: seq<RawEvent>, now: string) returns (k: Option<nat>)
    requires Filed(w) && id in w.shipments
    ensures var ship := w.shipments[id];
            && DeciderOf(o, ship, HashesOf(w.events, id), raws, OrEmpty(ship.lastEventAt), k)
            && Shows(o, ship, Ingest(o, w, id, raws, now).shipments[id], raws, k)
  {
    k := LatestIsFirstGreatest(o, w.shipments[id], StartFold(w.shipments[id], HashesOf(w.events, id)), raws);
  }

  /** The second call, told by the event `k` that decides its batch against the time
      stored before the first. */
  lemma SecondCallShows(o: Oracles, w: World, id: string, a: seq<RawEvent>, b: seq<RawEvent>, now: string, now': string, k: Option<nat>)
    requires Filed(w) && id in w.shipments
    requires var ship := w.shipments[id];
             DeciderOf(o, ship, HashesOf(w.events, id) + HashesIn(o, ship, a), b, OrEmpty(ship.lastEventAt), k)
    ensures var w1 := Ingest(o, w, id, a, now); var one := w1.shipments[id];
            Shows(o, one, Ingest(o, w1, id, b, now').shipments[id], b,
                  if k.Some? && Later(Time(b[k.value]), OrEmpty(one.lastEventAt)) then k else None)
  {
    var ship, w1 := w.shipments[id], Ingest(o, w, id, a, now);
    var one := w1.shipments[id];
    SeenIsStored(o, w, id, a, now);
    SameDecider(o, ship, one, HashesOf(w1.events, id), b, OrEmpty(ship.lastEventAt), k);
    ChangedStatusHasLaterTime(o, ship, HashesOf(w.events, id), a, now);
    LaterTimeDecides(o, one, StartFold(one, HashesOf(w1.events, id)), OrEmpty(ship.lastEventAt), b, k);
  }

  /** One call with both batches, told by the same two events. */
  lemma JoinedCallShows(o: Oracles, w: World, id: string, a: seq<RawEvent>, b: seq<RawEvent>, now: string, j: Option<nat>, k: Option<nat>)
    requires Filed(w) && id in w.shipments
    requires var ship, seen := w.shipments[id], HashesOf(w.events, id);
             && DeciderOf(o, ship, seen, a, OrEmpty(ship.lastEventAt), j)
             && DeciderOf(o, ship, seen + HashesIn(o, ship, a), b, OrEmpty(ship.lastEventAt), k)
    ensures var ship := w.shipments[id]; var t := Ingest(o, w, id, a + b, now).shipments[id];
            if k.Some? && Later(Time(b[k.value]), if j.Some? then Time(a[j.value]) else OrEmpty(ship.lastEventAt))
            then Shows(o, ship, t, b, k)
            else Shows(o, ship, t, a, j)
  {
    var ship, seen := w.shipments[id], HashesOf(w.events, id);
    var start := StartFold(ship, seen);
    LaterTimeDecides(o, ship, start, start.time, a, j);
    FoldSees(o, ship, start, a);
    FoldConcat(o, ship, start, a, b);
    LaterTimeDecides(o, ship, FoldAll(o, ship, start, a), start.time, b, k);
  }

  /** The first call left the status alone, so its time is lost, and the second
      takes an event that is not later. */
  predicate TakesOlder(o: Oracles, status: string, first: RawEvent, second: RawEvent) {
    Normalized(o, first) == status && Normalized(o, second) != status && !Later(Time(second), Time(first))
  }

  /** The first call changed the status, and the second has a later event that
      reports the first call's status or the one before it. */
  predicate Restates(o: Oracles, status: string, first: RawEvent, second: RawEvent) {
    Normalized(o, first) != status && Later(Time(second), Time(first))
    && (Normalized(o, second) == status || Normalized(o, second) == Normalized(o, first))
  }

  /** With `j` and `k` the events that decide each batch against the stored time,
      two calls and one call end in the same status unless the second takes an
      older event, and in the same event time too unless it restates a status. */
  lemma SplitAgreesExactly(o: Oracles, w: World, id: string, a: seq<RawEvent>, b: seq<RawEvent>, now: string, now': string)
    returns (j: Option<nat>, k: Option<nat>)
    requires Filed(w) && id in w.shipments
    ensures var ship, seen := w.shipments[id], HashesOf(w.events, id);
            && DeciderOf(o, ship, seen, a, OrEmpty(ship.lastEventAt), j)
            && DeciderOf(o, ship, seen + HashesIn(o, ship, a), b, OrEmpty(ship.lastEventAt), k)
    ensures var split := Ingest(o, Ingest(o, w, id, a, now), id, b, now').shipments[id];
            var joined := Ingest(o, w, id, a + b, now').shipments[id];
            var older := j.Some? && k.Some? && TakesOlder(o, w.shipments[id].currentStatus, a[j.value], b[k.value]);
            var restated := j.Some? && k.Some? && Restates(o, w.shipments[id].currentStatus, a[j.value], b[k.value]);
            && (split.currentStatus == joined.currentStatus <==> !older)
            && (split.currentStatus == joined.currentStatus && split.lastEventAt == joined.lastEventAt <==> !older && !restated)
  {
    var ship, seen := w.shipments[id], HashesOf(w.events, id);
    j := CallShowsDecider(o, w, id, a, now);
    var start := StartFold(ship, seen + HashesIn(o, ship, a));
    k := LatestIsFirstGreatest(o, ship, start, b);
    SecondCallShows(o, w, id, a, b, now, now', k);
    JoinedCallShows(o, w, id, a, b, now', j, k);
    if j.Some? && k.Some? {
      LaterTotal(Time(a[j.value]), Time(b[k.value]));
      LaterTotal(Time(b[k.value]), Time(b[k.value]));
      LaterTotal(OrEmpty(ship.lastEventAt), OrEmpty(ship.lastEventAt));
    }
  }

  /** In particular the status agrees whenever the first call wrote its latest time
      or had nothing later than the stored one. */
  lemma SplitAgrees(o: Oracles, w: World, id: string, a: seq<RawEvent>, b: seq<RawEvent>, now: string, now': string)
    requires Filed(w) && id in w.shipments
    requires var ship, seen := w.shipments[id], HashesOf(w.events, id);
             || NothingLater(o, ship, seen, a, OrEmpty(ship.lastEventAt))
             || Ingest(o, w, id, a, now).shipments[id].currentStatus != ship.currentStatus
    ensures var split := Ingest(o, Ingest(o, w, id, a, now), id, b, now').shipments[id];
            var joined := Ingest(o, w, id, a + b, now').shipments[id];
            && split.currentStatus == joined.currentStatus
            && (NothingLater(o, w.shipments[id], HashesOf(w.events, id), a, OrEmpty(w.shipments[id].lastEventAt)) ==>
                  split.lastEventAt == joined.lastEventAt)
  {
    var j, k := SplitAgreesExactly(o, w, id, a, b, now, now');
    var decider := CallShowsDecider(o, w, id, a, now);
    if j.Some? && decider.Some? {
      LaterTotal(Time(a[j.value]), Time(a[decider.value]));
      assert j.value == decider.value;
    }
  }

  /** A later confirmation of the current status, then an older report of another:
      in two calls the older report wins, in one it does not. */
  lemma SplitExample(o: Oracles, now: string) returns (w: World, a: RawEvent, b: RawEvent)
    requires o.digest(ByProviderId("S", "P")) != o.digest(ByProviderId("S", "Q"))
    ensures Filed(w) && "S" in w.shipments
    ensures Ingest(o, Ingest(o, w, "S", [a], now), "S", [b], now).shipments["S"].currentStatus == "picked_up"
    ensures Ingest(o, w, "S", [a, b], now).shipments["S"].currentStatus == "label_created"
  {
    a := RawEvent(None, None, None, Some("label_created"), Some("2"), None, None, Some("P"));
    b := RawEvent(None, None, None, Some("picked_up"), Some("1"), None, None, Some("Q"));
    w := Track(World(map[], []), "S", None, "T");
    var ship := w.shipments["S"];
    assert Later("1", "") && Later("2", "") && Later("2", "1") && !Later("1", "2");
    assert EventHash(o, ship, a) == o.digest(ByProviderId("S", "P"));
    assert EventHash(o, ship, b) == o.digest(ByProviderId("S", "Q"));
    var j, k := SplitAgreesExactly(o, w, "S", [a], [b], now, now);
    assert HashesOf(w.events, "S") == {};
    assert Fresh(o, ship, {}, [a], 0);
    assert Fresh(o, ship, {} + HashesIn(o, ship, [a]), [b], 0);
    assert j == Some(0) && k == Some(0);
    assert [a] + [b] == [a, b];
    SecondCallShows(o, w, "S", [a], [b], now, now, k);
    JoinedCallShows(o, w, "S", [a], [b], now, j, k);
    var only := CallShowsDecider(o, w, "S", [a], now);
    assert only == Some(0);
  }
}
