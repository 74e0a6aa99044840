/**
 What remains true of the association protocol when other writers change the
 provider's records as they like, one purchase order at a time: when an order can
 be associated again, and when the states returned to callers still agree.
 */
module OtherWriters {
  import opened Wrappers
  import opened ConfirmedOrders

  // ---------------------------------------------------------------------
  // A call that meets no resistance
  // ---------------------------------------------------------------------

  /** Call `k` runs alone until its POST has been accepted. */
  lemma RunToAssociation(s: System, k: nat, call: Call) returns (steps: seq<Step>, post: Post, t: System)
    requires k !in s.clients && IsSafeId(call.po) && call.po in s.cells && s.cells[call.po].state == JNull
    ensures t == Exec(s, steps) && forall i :: 0 <= i < |steps| ==> !steps[i].OtherWrite?
    ensures t.clients == s.clients[k := Client(call, Posted)]
    ensures t.cells == s.cells[call.po := Cell(s.cells[call.po].revision + 1, JObj(call.state))]
    ensures t.accepted == s.accepted + [Accepted(post, s.cells[call.po])] && post.po == call.po
  {
    post := Post(k, call.po, s.cells[call.po].revision, JObj(call.state));
    var s1 := RunToPost(s, k, call);
    steps := PostSteps(s, k, call) + [DeliverPost(post)];
    assert steps[..|steps| - 1] == PostSteps(s, k, call);
    t := Exec(s, steps);
    assert t == Apply(s1, DeliverPost(post));
  }

  function PostSteps(s: System, k: nat, call: Call): seq<Step>
    requires call.po in s.cells
  {
    [Begin(k, call), ServeRead(k), ReceiveRead(k, ReplyOf(s.tenant, call.po, s.cells[call.po]))]
  }

  /** From an empty record, three steps of call `k` put its POST in flight. */
  lemma RunToPost(s: System, k: nat, call: Call) returns (t: System)
    requires k !in s.clients && IsSafeId(call.po) && call.po in s.cells && s.cells[call.po].state == JNull
    ensures t == Exec(s, PostSteps(s, k, call))
    ensures t == SendPost(s.(clients := s.clients[k := Client(call, Posted)]),
                          Post(k, call.po, s.cells[call.po].revision, JObj(call.state)))
  {
    var steps := PostSteps(s, k, call);
    var cell := s.cells[call.po];
    TruthfulReplyRoundTrip(s.tenant, call.po, cell);
    var s1 := Apply(s, steps[0]);
    var s2 := Apply(s1, steps[1]);
    t := Apply(s2, steps[2]);
    assert steps[..2][..1] == steps[..1] && steps[..1][..0] == [];
    assert Exec(s, steps[..1]) == s1;
    assert Exec(s, steps[..2]) == s2;
    assert t.clients == s.clients[k := Client(call, Posted)];
  }

  lemma {:induction false} FreshClient(used: set<nat>) returns (k: nat)
    ensures k !in used && forall x :: x in used ==> x < k
    decreases used
  {
    if used == {} {
      k := 0;
    } else {
      var x :| x in used;
      var rest := FreshClient(used - {x});
      k := if x < rest then rest else x + 1;
      assert forall y :: y in used ==> y == x || y in used - {x};
    }
  }

  // ---------------------------------------------------------------------
  // Writers that never clear an order: it is associated once
  // ---------------------------------------------------------------------

  predicate Clears(s: System, step: Step, po: string) {
    step.OtherWrite? && step.po == po && po in s.cells && s.cells[po].state != JNull && step.state == JNull
  }

  ghost predicate NeverClears(s: System, steps: seq<Step>, po: string) {
    forall i :: 0 <= i < |steps| ==> !Clears(Exec(s, steps[..i]), steps[i], po)
  }

  lemma NeverClearsPrefix(s: System, steps: seq<Step>, po: string)
    requires steps != [] && NeverClears(s, steps, po)
    ensures NeverClears(s, steps[..|steps| - 1], po)
    ensures !Clears(Exec(s, steps[..|steps| - 1]), steps[|steps| - 1], po)
  {
    var init := steps[..|steps| - 1];
    forall i | 0 <= i < |init|
      ensures !Clears(Exec(s, init[..i]), init[i], po)
    {
      assert init[..i] == steps[..i] && init[i] == steps[i];
    }
  }

  /** At most one POST for the order was accepted, and if so the order has a state. */
  ghost predicate OneAssociation(s: System, po: string) {
    && (forall i :: 0 <= i < |s.accepted| && s.accepted[i].post.po == po ==> po in s.cells && s.cells[po].state != JNull)
    && (forall i, j :: 0 <= i < j < |s.accepted| ==> !(s.accepted[i].post.po == po && s.accepted[j].post.po == po))
  }

  lemma OneAssociationStep(s: System, step: Step, po: string)
    requires SnapshotsPrecede(s) && OnePostPerCall(s) && OneAssociation(s, po) && !Clears(s, step, po)
    ensures OneAssociation(Apply(s, step), po)
  {
    if step.DeliverPost? {
      OneAssociationAfterDelivery(s, step.post, po);
    } else {
      assert Apply(s, step).accepted == s.accepted;
      assert po in s.cells && s.cells[po].state != JNull ==>
          po in Apply(s, step).cells && Apply(s, step).cells[po].state != JNull;
    }
  }

  lemma OneAssociationAfterDelivery(s: System, p: Post, po: string)
    requires SnapshotsPrecede(s) && OnePostPerCall(s) && OneAssociation(s, po)
    ensures OneAssociation(ApplyDeliverPost(s, p), po)
  {
    if p in s.inFlight {
      assert p in s.sent && p.state.JObj?;
    }
  }

  /** Whatever happens to other orders, an order that nobody clears is associated
      at most once. */
  lemma {:induction false} AtMostOneAssociationPerOrder(s: System, steps: seq<Step>, po: string)
    requires Initial(s) && NeverClears(s, steps, po)
    ensures OneAssociation(Exec(s, steps), po)
  {
    if steps != [] {
      var init := steps[..|steps| - 1];
      NeverClearsPrefix(s, steps, po);
      AtMostOneAssociationPerOrder(s, init, po);
      SnapshotsPrecedeAlways(s, init);
      OnePostPerCallAlways(s, init);
      OneAssociationStep(Exec(s, init), steps[|steps| - 1], po);
    }
  }

  // ---------------------------------------------------------------------
  // Exactly when an order can still be associated
  // ---------------------------------------------------------------------

  /** Requests are only ever sent for well-formed ids, and only existing orders
      accept one. */
  ghost predicate PostsSafe(s: System) {
    && (forall p :: p in s.inFlight ==> IsSafeId(p.po))
    && (forall i :: 0 <= i < |s.accepted| ==> IsSafeId(s.accepted[i].post.po) && s.accepted[i].post.po in s.cells)
  }

  lemma PostsSafeStep(s: System, step: Step)
    requires PostsSafe(s)
    ensures PostsSafe(Apply(s, step))
  {
    if step.ReceiveRead? {
      ReadHasOutcome(s, step.client, step.wire);
    }
  }

  lemma {:induction false} PostsSafeAlways(s: System, steps: seq<Step>)
    requires Initial(s)
    ensures PostsSafe(Exec(s, steps))
  {
    if steps != [] {
      PostsSafeAlways(s, steps[..|steps| - 1]);
      PostsSafeStep(Exec(s, steps[..|steps| - 1]), steps[|steps| - 1]);
    }
  }

  ghost predicate Associable(s: System, po: string) {
    IsSafeId(po) && po in s.cells && s.cells[po].state == JNull
  }

  /** From `n` on, no accepted POST is for the order. */
  ghost predicate NoneAcceptedFrom(s: System, n: nat, po: string) {
    n <= |s.accepted| && forall i :: n <= i < |s.accepted| ==> s.accepted[i].post.po != po
  }

  lemma BlockedStep(s: System, step: Step, po: string, n: nat)
    requires SnapshotsPrecede(s) && PostsSafe(s) && !Associable(s, po) && !Clears(s, step, po) && NoneAcceptedFrom(s, n, po)
    ensures !Associable(Apply(s, step), po) && NoneAcceptedFrom(Apply(s, step), n, po)
  {
  }

  lemma {:induction false} BlockedRun(s: System, before: seq<Step>, after: seq<Step>, po: string)
    requires Initial(s) && !Associable(Exec(s, before), po) && NeverClears(Exec(s, before), after, po)
    ensures !Associable(Exec(Exec(s, before), after), po)
    ensures NoneAcceptedFrom(Exec(Exec(s, before), after), |Exec(s, before).accepted|, po)
  {
    if after != [] {
      var t, init := Exec(s, before), after[..|after| - 1];
      NeverClearsPrefix(t, after, po);
      BlockedRun(s, before, init, po);
      ExecConcat(s, before, init);
      SnapshotsPrecedeAlways(s, before + init);
      PostsSafeAlways(s, before + init);
      BlockedStep(Exec(t, init), after[|after| - 1], po, |t.accepted|);
    }
  }

  /** The steps, none of which clears the order, have another POST for it accepted. */
  ghost predicate AssociatesAgain(s: System, steps: seq<Step>, po: string) {
    NeverClears(s, steps, po) && !NoneAcceptedFrom(Exec(s, steps), |s.accepted|, po)
  }

  /** From any reachable state, some continuation that does not clear the order has
      a POST for it accepted exactly when the order is known, well named and without
      a state. */
  lemma AssociablePreciselyWhenEmpty(s: System, before: seq<Step>, po: string)
    requires Initial(s)
    ensures (exists after :: AssociatesAgain(Exec(s, before), after, po)) <==> Associable(Exec(s, before), po)
  {
    var t := Exec(s, before);
    if after :| AssociatesAgain(t, after, po) {
      if !Associable(t, po) {
        BlockedRun(s, before, after, po);
      }
    }
    if Associable(t, po) {
      var k := FreshClient(t.clients.Keys);
      var after, post, u := RunToAssociation(t, k, Call(po, map[]));
      assert u.accepted[|t.accepted|].post.po == po;
      assert AssociatesAgain(t, after, po);
    }
  }

  /** So an order that was associated before can be associated again, without being
      cleared from now on, exactly when its record has no state now. */
  lemma SecondAssociationExactly(s: System, before: seq<Step>, po: string, i: nat)
    requires Initial(s) && i < |Exec(s, before).accepted| && Exec(s, before).accepted[i].post.po == po
    ensures po in Exec(s, before).cells
    ensures (exists after :: AssociatesAgain(Exec(s, before), after, po)) <==> Exec(s, before).cells[po].state == JNull
  {
    PostsSafeAlways(s, before);
    AssociablePreciselyWhenEmpty(s, before, po);
  }

  /** A concrete run: two calls associate the same order, the record being cleared
      in between. */
  lemma ClearingAllowsSecondAssociation(s: System, call: Call) returns (steps: seq<Step>)
    requires Initial(s) && IsSafeId(call.po) && call.po in s.cells && s.cells[call.po].state == JNull
    ensures !NeverClears(s, steps, call.po) && !OneAssociation(Exec(s, steps), call.po)
  {
    var first, post, s1 := RunToAssociation(s, 0, call);
    var clear := OtherWrite(call.po, JNull);
    var second := AssociateAgain(s1, call);
    ExecSnoc(s, first, clear);
    ExecConcat(s, first + [clear], second);
    ClearingIsNoticed(s, first, clear, second, call.po);
    steps := first + [clear] + second;
  }

  lemma AssociateAgain(s: System, call: Call) returns (steps: seq<Step>)
    requires 1 !in s.clients && IsSafeId(call.po) && call.po in s.cells
    requires |s.accepted| == 1 && s.accepted[0].post.po == call.po
    ensures !OneAssociation(Exec(Apply(s, OtherWrite(call.po, JNull)), steps), call.po)
  {
    var cleared := ApplyOtherWrite(s, call.po, JNull);
    var second, post, t := RunToAssociation(cleared, 1, call);
    assert t.accepted[0].post.po == t.accepted[1].post.po == call.po;
    steps := second;
  }

  lemma ClearingIsNoticed(s: System, first: seq<Step>, clear: Step, rest: seq<Step>, po: string)
    requires Clears(Exec(s, first), clear, po)
    ensures !NeverClears(s, first + [clear] + rest, po)
  {
    var steps := first + [clear] + rest;
    assert steps[..|first|] == first && steps[|first|] == clear;
  }

  // ---------------------------------------------------------------------
  // Writers that keep the state of an order: callers still agree
  // ---------------------------------------------------------------------

  predicate Overwrites(s: System, step: Step, po: string) {
    step.OtherWrite? && step.po == po && po in s.cells && s.cells[po].state != JNull && step.state != s.cells[po].state
  }

  ghost predicate NeverOverwrites(s: System, steps: seq<Step>, po: string) {
    forall i :: 0 <= i < |steps| ==> !Overwrites(Exec(s, steps[..i]), steps[i], po)
  }

  function SnapshotState(phase: Phase): Json {
    match phase
    case FirstAnswered(seen) => seen.state
    case ReadBackAnswered(seen) => seen.state
    case Returned(x) => x.state
    case _ => JNull
  }

  /** A state that a call on the order has seen is the one the provider holds. */
  ghost predicate StatesKept(s: System, po: string) {
    forall k :: k in s.clients && s.clients[k].call.po == po && SnapshotState(s.clients[k].phase) != JNull ==>
      po in s.cells && SnapshotState(s.clients[k].phase) == s.cells[po].state
  }

  lemma StatesKeptAfterRead(s: System, k: nat, t: System, po: string)
    requires StatesKept(s, po) && ReadOutcome(s, k, t)
    ensures StatesKept(t, po)
  {
  }

  lemma StatesKeptStep(s: System, step: Step, po: string)
    requires SnapshotsPrecede(s) && StatesKept(s, po) && !Overwrites(s, step, po)
    ensures StatesKept(Apply(s, step), po)
  {
    if step.ReceiveRead? {
      ReadHasOutcome(s, step.client, step.wire);
      StatesKeptAfterRead(s, step.client, Apply(s, step), po);
    }
  }

  lemma {:induction false} StatesAlwaysKept(s: System, steps: seq<Step>, po: string)
    requires Initial(s) && NeverOverwrites(s, steps, po)
    ensures StatesKept(Exec(s, steps), po)
  {
    if steps != [] {
      var init := steps[..|steps| - 1];
      forall i | 0 <= i < |init|
        ensures !Overwrites(Exec(s, init[..i]), init[i], po)
      {
        assert init[..i] == steps[..i] && init[i] == steps[i];
      }
      StatesAlwaysKept(s, init, po);
      SnapshotsPrecedeAlways(s, init);
      StatesKeptStep(Exec(s, init), steps[|steps| - 1], po);
    }
  }

  /** Other writers may bump the revision, and may even be the ones to associate
      the order; as long as none replaces or clears its state, all calls that
      return a state for it return the same one, which the provider still holds. */
  lemma ReturnedStatesAgreeDespiteWriters(s: System, steps: seq<Step>, k: nat, l: nat)
    requires Initial(s) && k in Exec(s, steps).clients && l in Exec(s, steps).clients
    requires Exec(s, steps).clients[k].call.po == Exec(s, steps).clients[l].call.po
    requires NeverOverwrites(s, steps, Exec(s, steps).clients[k].call.po)
    requires Exec(s, steps).clients[k].phase.Returned? && Exec(s, steps).clients[k].phase.result.state != JNull
    requires Exec(s, steps).clients[l].phase.Returned? && Exec(s, steps).clients[l].phase.result.state != JNull
    ensures Exec(s, steps).clients[k].phase.result.state == Exec(s, steps).clients[l].phase.result.state
    ensures var t := Exec(s, steps); var po := t.clients[k].call.po;
            po in t.cells && t.cells[po].state == t.clients[k].phase.result.state
  {
    var t := Exec(s, steps);
    StatesAlwaysKept(s, steps, t.clients[k].call.po);
    assert SnapshotState(t.clients[k].phase) == t.clients[k].phase.result.state;
    assert SnapshotState(t.clients[l].phase) == t.clients[l].phase.result.state;
  }
}
