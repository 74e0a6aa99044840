/**
 The association call as sequential code, run while everybody else keeps
 going. Between any two of its own actions the call lets the network perform
 arbitrary steps of other callers, other writers and in-flight requests. The
 method is proved to be one client of the step system in ConfirmedOrders, so
 every theorem about runs holds of the code.
 */
module AssociateCall {
  import opened Wrappers
  import opened ConfirmedOrders

  predicate ActsFor(step: Step, k: nat) {
    match step
    case Begin(c, _) => c == k
    case ServeRead(c) => c == k
    case ReceiveRead(c, _) => c == k
    case ReceivePost(c, _) => c == k
    case _ => false
  }

  ghost predicate OthersOnly(steps: seq<Step>, k: nat) {
    forall i :: 0 <= i < |steps| ==> !ActsFor(steps[i], k)
  }

  lemma {:induction false} OthersKeepClient(s: System, steps: seq<Step>, k: nat)
    requires OthersOnly(steps, k)
    ensures Exec(s, steps).tenant == s.tenant
    ensures k in Exec(s, steps).clients <==> k in s.clients
    ensures k in s.clients ==> Exec(s, steps).clients[k] == s.clients[k]
  {
    if steps != [] {
      OthersKeepClient(s, steps[..|steps| - 1], k);
    }
  }

  /** What the network does around one request of the call: steps of others
      before the provider handles it and before the reply arrives, and a reply
      that replaces the provider's own, if any. */
  datatype Fate = Fate(before: seq<Step>, handled: bool, after: seq<Step>, replaced: Option<Wire>)

  ghost predicate FateFor(f: Fate, k: nat) {
    OthersOnly(f.before, k) && OthersOnly(f.after, k)
  }

  /** A replaced reply to a read is one that the call rejects. */
  ghost predicate ReadFateFor(f: Fate, k: nat, tenant: string, po: string) {
    && FateFor(f, k)
    && (f.replaced.Some? ==> GetExecution(tenant, po, f.replaced.value).Failure?)
    && (!f.handled ==> f.replaced.Some?)
  }

  function PhaseOf(r: Result<Execution, Error>): Phase {
    match r
    case Success(x) => Returned(x)
    case Failure(e) => Raised(e)
  }

  predicate IsReading(phase: Phase, first: bool) {
    if first then phase.FirstRead? || phase.FirstAnswered? else phase.ReadBack? || phase.ReadBackAnswered?
  }

  /** The provider may answer the outstanding read of `k`, and only that. */
  lemma ServedRead(s: System, k: nat, first: bool)
    requires k in s.clients && s.clients[k].call.po in s.cells
    requires s.clients[k].phase == if first then FirstRead else ReadBack
    ensures var seen := s.cells[s.clients[k].call.po];
            Apply(s, ServeRead(k)) == SetPhase(s, k, if first then FirstAnswered(seen) else ReadBackAnswered(seen))
  {
  }

  lemma ReceivedRead(s: System, k: nat, wire: Wire, first: bool)
    requires k in s.clients && IsReading(s.clients[k].phase, first) && ReadWireAllowed(s, k, wire)
    ensures var t, r := Apply(s, ReceiveRead(k, wire)), GetExecution(s.tenant, s.clients[k].call.po, wire);
            && t.tenant == s.tenant
            && k in t.clients && t.clients[k].call == s.clients[k].call
            && t.clients[k].phase == (if first then AfterFirstRead(r) else AfterReadBack(r))
            && t.cells == s.cells && t.accepted == s.accepted
            && (first && r.Success? && r.value.state == JNull ==> PostFor(k, s.clients[k].call, r.value.revision) in t.inFlight)
  {
  }

  // ---------------------------------------------------------------------
  // What a request does at the provider
  // ---------------------------------------------------------------------

  /** The request of call `k` for a record that it read at this revision. */
  function PostFor(k: nat, call: Call, revision: nat): Post {
    Post(k, call.po, revision, JObj(call.state))
  }

  ghost predicate NeverDropped(steps: seq<Step>, post: Post) {
    forall i :: 0 <= i < |steps| ==> steps[i] != DropPost(post)
  }

  /** A request that the network does not drop stays in flight. */
  lemma {:induction false} StaysInFlight(s: System, steps: seq<Step>, post: Post)
    requires post in s.inFlight && NeverDropped(steps, post)
    ensures post in Exec(s, steps).inFlight
  {
    if steps != [] {
      StaysInFlight(s, steps[..|steps| - 1], post);
    }
  }

  /** What was accepted stays accepted. */
  lemma {:induction false} AcceptedGrows(s: System, steps: seq<Step>)
    ensures s.accepted <= Exec(s, steps).accepted
  {
    if steps != [] {
      AcceptedGrows(s, steps[..|steps| - 1]);
    }
  }

  /** The provider, at the moment `at`, accepts the request if its record has the
      expected revision, and the acceptance is on record ever after. */
  ghost predicate Delivered(at: System, post: Post, after: System) {
    post.po in at.cells && at.cells[post.po].revision == post.expected ==>
      && |at.accepted| < |after.accepted|
      && after.accepted[|at.accepted|] == Accepted(post, at.cells[post.po])
  }

  lemma DeliveryAccepts(at: System, post: Post, rest: seq<Step>)
    requires post in at.inFlight
    ensures Delivered(at, post, Exec(Apply(at, DeliverPost(post)), rest))
  {
    AcceptedGrows(Apply(at, DeliverPost(post)), rest);
  }

  /** The provider after the way of a POST there and back. */
  function AfterWrite(s: System, fate: Fate, post: Post): System {
    var at := Exec(s, fate.before);
    Exec(if fate.handled then Apply(at, DeliverPost(post)) else at, fate.after)
  }

  lemma WriteGrows(s: System, fate: Fate, post: Post)
    requires post in s.inFlight
    ensures s.accepted <= AfterWrite(s, fate, post).accepted
    ensures fate.handled && NeverDropped(fate.before, post) ==> Delivered(Exec(s, fate.before), post, AfterWrite(s, fate, post))
    ensures Undisturbed(fate) && post.po in s.cells && s.cells[post.po].revision == post.expected ==>
              AfterWrite(s, fate, post).cells == s.cells[post.po := Cell(post.expected + 1, post.state)]
  {
    var at := Exec(s, fate.before);
    AcceptedGrows(s, fate.before);
    if fate.handled {
      SingleStep(at, DeliverPost(post));
      AcceptedGrows(at, [DeliverPost(post)]);
      AcceptedGrows(Apply(at, DeliverPost(post)), fate.after);
      if NeverDropped(fate.before, post) {
        StaysInFlight(s, fate.before, post);
        DeliveryAccepts(at, post, fate.after);
      }
    } else {
      AcceptedGrows(at, fate.after);
    }
  }

  lemma SingleStep(s: System, step: Step)
    ensures Exec(s, [step]) == Apply(s, step)
  {
    assert [step][..0] == [];
  }

  /** The reply fits what became of the request: the provider's own record, or
      something that the call rejects. */
  ghost predicate AnsweredBy(tenant: string, served: System, po: string, fate: Fate, wire: Wire) {
    if fate.handled && fate.replaced.None? && po in served.cells
    then GetExecution(tenant, po, wire) == Success(Execution(served.cells[po].revision, served.cells[po].state))
    else GetExecution(tenant, po, wire).Failure?
  }

  lemma UnknownOrderFails(tenant: string, po: string)
    ensures GetExecution(tenant, po, Reply(404, None)).Failure?
  {
  }

  /** Nothing else happens around the request, and its reply arrives. */
  predicate Undisturbed(f: Fate) {
    f.before == [] && f.after == [] && f.handled && f.replaced.None?
  }

  /** The provider when it serves the first read of a call. */
  function AtFirstRead(s: System, k: nat, call: Call, first: Fate): System {
    Exec(Apply(s, Begin(k, call)), first.before)
  }

  ghost predicate ReadsEmpty(s: System, k: nat, call: Call, first: Fate) {
    && IsSafeId(call.po) && first.handled && first.replaced.None?
    && call.po in AtFirstRead(s, k, call, first).cells
    && AtFirstRead(s, k, call, first).cells[call.po].state == JNull
  }

  class Network {
    var system: System

    constructor (system: System)
      ensures this.system == system
    {
      this.system := system;
    }

    method Perform(step: Step, ghost done: seq<Step>, ghost start: System) returns (ghost done': seq<Step>)
      requires system == Exec(start, done)
      modifies this
      ensures system == Apply(old(system), step) == Exec(start, done')
      ensures done' == done + [step]
    {
      ExecSnoc(start, done, step);
      system := Apply(system, step);
      done' := done + [step];
    }

    method LetOthersRun(steps: seq<Step>, ghost k: nat, ghost done: seq<Step>, ghost start: System)
      returns (ghost done': seq<Step>)
      requires system == Exec(start, done) && OthersOnly(steps, k)
      modifies this
      ensures system == Exec(old(system), steps) == Exec(start, done')
      ensures done' == done + steps
      ensures system.tenant == old(system).tenant
      ensures k in system.clients <==> k in old(system).clients
      ensures k in system.clients ==> system.clients[k] == old(system).clients[k]
    {
      OthersKeepClient(system, steps, k);
      ExecConcat(start, done, steps);
      system := Exec(system, steps);
      done' := done + steps;
    }

    /** The way of a GET to the provider and back, up to the reply. */
    method ReachForRead(k: nat, ghost first: bool, fate: Fate, ghost done: seq<Step>, ghost start: System)
      returns (wire: Wire, ghost done': seq<Step>)
      requires system == Exec(start, done)
      requires k in system.clients && IsSafeId(system.clients[k].call.po)
      requires system.clients[k].phase == if first then FirstRead else ReadBack
      requires ReadFateFor(fate, k, system.tenant, system.clients[k].call.po)
      modifies this
      ensures system == Exec(start, done') && system.tenant == old(system).tenant && done <= done'
      ensures k in system.clients && system.clients[k].call == old(system).clients[k].call
      ensures IsReading(system.clients[k].phase, first) && ReadWireAllowed(system, k, wire)
      ensures AnsweredBy(system.tenant, Exec(old(system), fate.before), old(system).clients[k].call.po, fate, wire)
      ensures Undisturbed(fate) ==> system.cells == old(system).cells && system.accepted == old(system).accepted
      ensures old(system).accepted <= system.accepted
    {
      var po := system.clients[k].call.po;
      done' := LetOthersRun(fate.before, k, done, start);
      AcceptedGrows(old(system), fate.before);
      wire := Reply(404, None);
      UnknownOrderFails(system.tenant, po);
      if fate.handled && po in system.cells {
        wire := ReplyOf(system.tenant, po, system.cells[po]);
        TruthfulReplyRoundTrip(system.tenant, po, system.cells[po]);
        ServedRead(system, k, first);
        done' := Perform(ServeRead(k), done', start);
      }
      AcceptedGrows(system, fate.after);
      done' := LetOthersRun(fate.after, k, done', start);
      if fate.replaced.Some? {
        wire := fate.replaced.value;
      }
    }

    /** One GET of the execution state, from the request to the reply: it succeeds
        exactly when the provider handles it for a known order and its own reply
        arrives, with the record of that moment. An empty first read sends the POST. */
    method Get(k: nat, ghost first: bool, fate: Fate, ghost done: seq<Step>, ghost start: System)
      returns (r: Result<Execution, Error>, ghost done': seq<Step>)
      requires system == Exec(start, done)
      requires k in system.clients && IsSafeId(system.clients[k].call.po)
      requires system.clients[k].phase == if first then FirstRead else ReadBack
      requires ReadFateFor(fate, k, system.tenant, system.clients[k].call.po)
      modifies this
      ensures system == Exec(start, done') && system.tenant == old(system).tenant && done <= done'
      ensures k in system.clients && system.clients[k].call == old(system).clients[k].call
      ensures system.clients[k].phase == if first then AfterFirstRead(r) else AfterReadBack(r)
      ensures var served, po := Exec(old(system), fate.before), old(system).clients[k].call.po;
              if fate.handled && fate.replaced.None? && po in served.cells
              then r == Success(Execution(served.cells[po].revision, served.cells[po].state))
              else r.Failure?
      ensures first && r.Success? && r.value.state == JNull ==>
                PostFor(k, old(system).clients[k].call, r.value.revision) in system.inFlight
      ensures Undisturbed(fate) ==> system.cells == old(system).cells && system.accepted == old(system).accepted
      ensures old(system).accepted <= system.accepted
    {
      var po := system.clients[k].call.po;
      var wire;
      wire, done' := ReachForRead(k, first, fate, done, start);
      r := GetExecution(system.tenant, po, wire);
      ReceivedRead(system, k, wire, first);
      done' := Perform(ReceiveRead(k, wire), done', start);
    }

    /** The way of a POST to the provider and back, up to the reply. */
    method ReachForWrite(k: nat, post: Post, fate: Fate, ghost done: seq<Step>, ghost start: System)
      returns (ghost n: nat, ghost done': seq<Step>)
      requires system == Exec(start, done) && FateFor(fate, k)
      requires k in system.clients && post in system.inFlight
      modifies this
      ensures system == Exec(start, done') && system.tenant == old(system).tenant && done <= done'
      ensures k in system.clients && system.clients[k] == old(system).clients[k]
      ensures n <= |done'| && Exec(start, done'[..n]) == Exec(old(system), fate.before)
      ensures fate.handled ==> n < |done'| && done'[n] == DeliverPost(post)
      ensures system == AfterWrite(old(system), fate, post)
    {
      done' := LetOthersRun(fate.before, k, done, start);
      n := |done'|;
      ghost var reached := done';
      if fate.handled {
        done' := Perform(DeliverPost(post), done', start);
      }
      done' := LetOthersRun(fate.after, k, done', start);
      assert done'[..n] == reached;
    }

    /** One compare-and-set POST that is in flight, from the request to whatever
        reply arrives: if the provider handles it, the request is delivered at step
        `n`, and accepted if it is still there and the record has the expected revision. */
    method SendCompareAndSet(k: nat, post: Post, fate: Fate, reply: Wire, ghost done: seq<Step>, ghost start: System)
      returns (r: Result<map<string, Json>, Error>, ghost n: nat, ghost done': seq<Step>)
      requires system == Exec(start, done) && FateFor(fate, k)
      requires k in system.clients && system.clients[k].phase.Posted? && post in system.inFlight
      modifies this
      ensures system == Exec(start, done') && system.tenant == old(system).tenant && done <= done'
      ensures k in system.clients && system.clients[k].call == old(system).clients[k].call
      ensures r == Request(old(system).tenant, reply)
      ensures system.clients[k].phase == AfterPost(r)
      ensures n <= |done'| && Exec(start, done'[..n]) == Exec(old(system), fate.before)
      ensures fate.handled ==> n < |done'| && done'[n] == DeliverPost(post)
      ensures fate.handled && NeverDropped(fate.before, post) ==> Delivered(Exec(old(system), fate.before), post, system)
      ensures Undisturbed(fate) && post.po in old(system).cells && old(system).cells[post.po].revision == post.expected ==>
                system.cells == old(system).cells[post.po := Cell(post.expected + 1, post.state)]
      ensures old(system).accepted <= system.accepted
    {
      WriteGrows(system, fate, post);
      n, done' := ReachForWrite(k, post, fate, done, start);
      r := Request(system.tenant, reply);
      ghost var reached := done';
      done' := Perform(ReceivePost(k, reply), done', start);
      assert done'[..n] == reached[..n];
    }

    /** `associate`: read, compare-and-set once, read back.

        If the first read finds an empty record and the provider handles the POST,
        then step `n` of the run delivers the request of this call with its order, its
        state and the revision that was read; unless it was dropped, the provider
        accepts it if the record still has that revision. Undisturbed, the call
        returns its own state one revision on, and the provider holds it. */
    method Associate(k: nat, call: Call, first: Fate, write: Fate, reply: Wire, last: Fate)
      returns (r: Result<Execution, Error>, ghost steps: seq<Step>, ghost n: nat)
      requires k !in system.clients
      requires ReadFateFor(first, k, system.tenant, call.po) && FateFor(write, k)
      requires ReadFateFor(last, k, system.tenant, call.po)
      modifies this
      ensures system == Exec(old(system), steps)
      ensures k in system.clients && system.clients[k] == Client(call, PhaseOf(r))
      ensures !IsSafeId(call.po) ==> r == Failure(Error(ProviderIdInvalid, 422)) && steps == [Begin(k, call)]
      ensures ReadsEmpty(old(system), k, call, first) && write.handled ==>
                var post := PostFor(k, call, AtFirstRead(old(system), k, call, first).cells[call.po].revision);
                && n < |steps| && steps[n] == DeliverPost(post)
                && (NeverDropped(write.before, post) ==> Delivered(Exec(old(system), steps[..n]), post, system))
      ensures IsSafeId(call.po) && call.po in old(system).cells && Undisturbed(first) && old(system).cells[call.po].state != JNull ==>
                && r == Success(Execution(old(system).cells[call.po].revision, old(system).cells[call.po].state))
                && system.cells == old(system).cells && system.accepted == old(system).accepted
      ensures IsSafeId(call.po) && call.po in old(system).cells && old(system).cells[call.po].state == JNull
              && Undisturbed(first) && Undisturbed(write) && Undisturbed(last)
              && !(reply.Reply? && reply.status in {404, 422}) ==>
                var written := Cell(old(system).cells[call.po].revision + 1, JObj(call.state));
                && r == Success(Execution(written.revision, written.state))
                && system.cells == old(system).cells[call.po := written]
    {
      ghost var start := system;
      n := 0;
      steps := Perform(Begin(k, call), [], start);
      if !IsSafeId(call.po) {
        return Failure(Error(ProviderIdInvalid, 422)), steps, n;
      }
      var current;
      current, steps := Get(k, true, first, steps, start);
      if current.Failure? || current.value.state != JNull {
        return current, steps, n;
      }
      var post := Post(k, call.po, current.value.revision, JObj(call.state));
      r, n, steps := WriteAndReadBack(k, post, write, reply, last, steps, start);
    }

    /** The second half of the call, from an empty record on. */
    method WriteAndReadBack(k: nat, post: Post, write: Fate, reply: Wire, last: Fate, ghost done: seq<Step>, ghost start: System)
      returns (r: Result<Execution, Error>, ghost n: nat, ghost steps: seq<Step>)
      requires system == Exec(start, done) && FateFor(write, k)
      requires k in system.clients && system.clients[k].phase.Posted? && post in system.inFlight
      requires IsSafeId(system.clients[k].call.po) && post.po == system.clients[k].call.po
      requires ReadFateFor(last, k, system.tenant, post.po)
      modifies this
      ensures system == Exec(start, steps) && done <= steps
      ensures k in system.clients && system.clients[k] == Client(old(system).clients[k].call, PhaseOf(r))
      ensures n <= |steps| && Exec(start, steps[..n]) == Exec(old(system), write.before)
      ensures write.handled ==> n < |steps| && steps[n] == DeliverPost(post)
      ensures write.handled && NeverDropped(write.before, post) ==> Delivered(Exec(old(system), write.before), post, system)
      ensures Undisturbed(write) && Undisturbed(last) && post.po in old(system).cells
              && old(system).cells[post.po].revision == post.expected && !(reply.Reply? && reply.status in {404, 422}) ==>
                && r == Success(Execution(post.expected + 1, post.state))
                && system.cells == old(system).cells[post.po := Cell(post.expected + 1, post.state)]
    {
      var posted;
      posted, n, steps := SendCompareAndSet(k, post, write, reply, done, start);
      ghost var sent := steps;
      PostRaisesExactlyOnRefusal(old(system).tenant, reply);
      if posted.Failure? {
        if PostErrorPropagates(posted.error) {
          return Failure(posted.error), n, steps;
        }
      }
      r, steps := Get(k, false, last, steps, start);
      assert steps[..n] == sent[..n];
    }
  }

  /** What a caller may rely on, whoever else runs: from a fresh system, with
      only associating writers, a state returned by the call is the state the
      provider holds, and if the call's POST was ever processed before its
      read-back the call does not return without a state. */
  lemma CallLearnsTheAssociation(s: System, before: seq<Step>, after: seq<Step>, k: nat, call: Call, x: Execution)
    requires Initial(s) && AssociatorsOnly(before) && AssociatorsOnly(after)
    requires k in Exec(s, before + after).clients && Exec(s, before + after).clients[k] == Client(call, Returned(x))
    ensures x.state != JNull ==>
              call.po in Exec(s, before + after).cells
              && Exec(s, before + after).cells[call.po] == Cell(x.revision, x.state)
    ensures (exists p :: p in Exec(s, before).delivered && p.client == k)
            && k in Exec(s, before).clients
            && (Exec(s, before).clients[k].phase.Posted? || Exec(s, before).clients[k].phase.ReadBack?)
            ==> x.state != JNull
  {
    AgreementAlways(s, before + after);
    var t := Exec(s, before + after);
    assert PhaseAgrees(t.clients[k].phase, t.cells[call.po]);
    if p :| p in Exec(s, before).delivered && p.client == k
            && k in Exec(s, before).clients
            && (Exec(s, before).clients[k].phase.Posted? || Exec(s, before).clients[k].phase.ReadBack?) {
      DeliveredCallNeverReturnsNull(s, before, after, p);
    }
  }
}
