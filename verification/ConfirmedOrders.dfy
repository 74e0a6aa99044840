/**
 The confirmed-order association protocol: a read, one compare-and-set and a
 read-back, run by any number of callers against a provider that is reached
 over a network which may lose, delay, repeat or reorder requests.

 The first half is what one caller does with each reply. The second half is a
 step system whose runs interleave callers, the provider and other writers.

 Assumption on the provider (src/integrations/confirmed_orders.py:94-103): a
 write takes effect only when its expected revision is the current one, and
 every write that takes effect raises the revision by one.
 */
module ConfirmedOrders {
  import opened Wrappers

  datatype Json =
    | JNull
    | JBool(b: bool)
    | JInt(i: int)
    | JReal(r: real)
    | JStr(s: string)
    | JArr(items: seq<Json>)
    | JObj(fields: map<string, Json>)

  datatype Code =
    | ProviderIdInvalid
    | ProviderUnavailable
    | ProviderHttp(status: int)
    | ProviderResponseInvalid
    | ProviderResponseTenantMismatch
    | ProviderExecutionResponseInvalid

  datatype Error = Error(code: Code, statusCode: int)

  /** What comes back for one request; a body of None is not valid JSON. */
  datatype Wire = NoReply | Reply(status: int, body: Option<Json>)

  datatype Execution = Execution(revision: nat, state: Json)

  // ---------------------------------------------------------------------
  // One caller
  // ---------------------------------------------------------------------

  predicate IsAlphaNumeric(c: char) {
    'A' <= c <= 'Z' || 'a' <= c <= 'z' || '0' <= c <= '9'
  }

  predicate IsSafeId(id: string) {
    && 1 <= |id| <= 255
    && IsAlphaNumeric(id[0])
    && forall i :: 0 <= i < |id| ==> IsAlphaNumeric(id[i]) || id[i] in "._:-"
  }

  function Field(fields: map<string, Json>, key: string): Json {
    if key in fields then fields[key] else JNull
  }

  function Request(tenant: string, wire: Wire): Result<map<string, Json>, Error> {
    match wire
    case NoReply => Failure(Error(ProviderUnavailable, 503))
    case Reply(status, body) =>
      if status != 200 then
        Failure(Error(ProviderHttp(status), if status in {404, 409, 422} then status else 502))
      else if body.None? then
        Failure(Error(ProviderResponseInvalid, 502))
      else if !body.value.JObj? || Field(body.value.fields, "tenant_id") != JStr(tenant) then
        Failure(Error(ProviderResponseTenantMismatch, 502))
      else
        Success(body.value.fields)
  }

  function GetExecution(tenant: string, po: string, wire: Wire): Result<Execution, Error> {
    if !IsSafeId(po) then
      Failure(Error(ProviderIdInvalid, 422))
    else
      var fields :- Request(tenant, wire);
      var revision := Field(fields, "revision");
      if Field(fields, "po_id") != JStr(po) || !revision.JInt? || revision.i < 0 then
        Failure(Error(ProviderExecutionResponseInvalid, 502))
      else
        Success(Execution(revision.i, Field(fields, "state")))
  }

  /** A read succeeds exactly on a 200 reply of this tenant for this very order, and
      then with the revision and state that the reply carries. */
  lemma ReadSucceedsExactly(tenant: string, po: string, wire: Wire, x: Execution)
    ensures GetExecution(tenant, po, wire) == Success(x) <==>
              && IsSafeId(po) && wire.Reply? && wire.status == 200
              && wire.body.Some? && wire.body.value.JObj?
              && Field(wire.body.value.fields, "tenant_id") == JStr(tenant)
              && Field(wire.body.value.fields, "po_id") == JStr(po)
              && Field(wire.body.value.fields, "revision") == JInt(x.revision)
              && Field(wire.body.value.fields, "state") == x.state
  {
  }

  /** A request fails exactly when no well-formed 200 reply of this tenant comes back;
      the status it fails with is 503 exactly without a reply, that of the reply for
      404, 409 and 422, and 502 otherwise. */
  lemma RequestFailsExactly(tenant: string, wire: Wire)
    ensures var r := Request(tenant, wire);
            && (r.Failure? <==> !(&& wire.Reply? && wire.status == 200 && wire.body.Some? && wire.body.value.JObj?
                                  && Field(wire.body.value.fields, "tenant_id") == JStr(tenant)))
            && (r.Success? ==> JObj(r.value) == wire.body.value)
            && (r.Failure? ==>
                  && (r.error.statusCode == 503 <==> wire.NoReply?)
                  && (wire.Reply? && wire.status in {404, 409, 422} ==> r.error.statusCode == wire.status)
                  && (wire.Reply? && wire.status !in {404, 409, 422} ==> r.error.statusCode == 502))
  {
    if wire.Reply? && wire.status != 200 {
      var r := Request(tenant, wire);
      assert r == Failure(Error(ProviderHttp(wire.status), if wire.status in {404, 409, 422} then wire.status else 502));
    }
  }

  /** Whether `associate` re-raises what its POST raised. */
  predicate PostErrorPropagates(e: Error) {
    e.code != ProviderHttp(409) && e.statusCode !in {502, 503}
  }

  /** Of all that can happen to the POST, only a definite refusal ends the call;
      a lost, malformed, foreign or conflicting reply leads to the read-back. */
  lemma PostRaisesExactlyOnRefusal(tenant: string, wire: Wire)
    ensures Request(tenant, wire).Failure? && PostErrorPropagates(Request(tenant, wire).error)
            <==> wire.Reply? && wire.status in {404, 422}
  {
    var r := Request(tenant, wire);
    if wire.Reply? && wire.status != 200 {
      assert r == Failure(Error(ProviderHttp(wire.status), if wire.status in {404, 409, 422} then wire.status else 502));
    }
  }

  // ---------------------------------------------------------------------
  // The step system
  // ---------------------------------------------------------------------

  /** The provider's record for one purchase order; JNull means no association. */
  datatype Cell = Cell(revision: nat, state: Json)

  datatype Call = Call(po: string, state: map<string, Json>)

  datatype Phase =
    | FirstRead
    | FirstAnswered(seen: Cell)
    | Posted
    | ReadBack
    | ReadBackAnswered(seen: Cell)
    | Returned(result: Execution)
    | Raised(error: Error)

  datatype Client = Client(call: Call, phase: Phase)

  /** A compare-and-set request; `client` names the call that sent it. */
  datatype Post = Post(client: nat, po: string, expected: nat, state: Json)

  /** A request that took effect, with the record it replaced. */
  datatype Accepted = Accepted(post: Post, before: Cell)

  /** `inFlight` requests may be delivered any number of times or dropped.
      `sent`, `accepted` and `delivered` record history. */
  datatype System = System(
    tenant: string,
    cells: map<string, Cell>,
    clients: map<nat, Client>,
    inFlight: set<Post>,
    sent: seq<Post>,
    accepted: seq<Accepted>,
    delivered: set<Post>)

  datatype Step =
    | Begin(client: nat, call: Call)
    | ServeRead(client: nat)
    | ReceiveRead(client: nat, wire: Wire)
    | DeliverPost(post: Post)
    | DropPost(post: Post)
    | ReceivePost(client: nat, wire: Wire)
    | OtherWrite(po: string, state: Json)

  /** The reply of a truthful provider to a read. */
  function ReplyOf(tenant: string, po: string, cell: Cell): Wire {
    Reply(200, Some(JObj(map[
      "po_id" := JStr(po),
      "tenant_id" := JStr(tenant),
      "revision" := JInt(cell.revision),
      "state" := cell.state])))
  }

  /** A truthful reply is read back as exactly the record it was made from. */
  lemma TruthfulReplyRoundTrip(tenant: string, po: string, cell: Cell)
    requires IsSafeId(po)
    ensures GetExecution(tenant, po, ReplyOf(tenant, po, cell)) == Success(Execution(cell.revision, cell.state))
  {
    var fields := ReplyOf(tenant, po, cell).body.value.fields;
    assert Request(tenant, ReplyOf(tenant, po, cell)) == Success(fields);
    assert Field(fields, "revision") == JInt(cell.revision);
  }

  function AfterFirstRead(r: Result<Execution, Error>): Phase {
    match r
    case Failure(e) => Raised(e)
    case Success(x) => if x.state != JNull then Returned(x) else Posted
  }

  function AfterPost(r: Result<map<string, Json>, Error>): Phase {
    match r
    case Failure(e) => if PostErrorPropagates(e) then Raised(e) else ReadBack
    case Success(_) => ReadBack
  }

  function AfterReadBack(r: Result<Execution, Error>): Phase {
    match r
    case Failure(e) => Raised(e)
    case Success(x) => Returned(x)
  }

  function SetPhase(s: System, k: nat, phase: Phase): System
    requires k in s.clients
  {
    s.(clients := s.clients[k := s.clients[k].(phase := phase)])
  }

  function ApplyBegin(s: System, k: nat, call: Call): System {
    if k in s.clients then s
    else
      var phase := if IsSafeId(call.po) then FirstRead else Raised(Error(ProviderIdInvalid, 422));
      s.(clients := s.clients[k := Client(call, phase)])
  }

  function ApplyServeRead(s: System, k: nat): System {
    if k !in s.clients || s.clients[k].call.po !in s.cells then s
    else
      var seen := s.cells[s.clients[k].call.po];
      match s.clients[k].phase
      case FirstRead => SetPhase(s, k, FirstAnswered(seen))
      case ReadBack => SetPhase(s, k, ReadBackAnswered(seen))
      case _ => s
  }

  /** A read may fail in any way; if it succeeds, it is the answer the provider gave. */
  predicate ReadWireAllowed(s: System, k: nat, wire: Wire)
    requires k in s.clients
  {
    var c := s.clients[k];
    || GetExecution(s.tenant, c.call.po, wire).Failure?
    || (c.phase.FirstAnswered? && wire == ReplyOf(s.tenant, c.call.po, c.phase.seen))
    || (c.phase.ReadBackAnswered? && wire == ReplyOf(s.tenant, c.call.po, c.phase.seen))
  }

  function SendPost(s: System, post: Post): System {
    s.(inFlight := s.inFlight + {post}, sent := s.sent + [post])
  }

  function ApplyReceiveRead(s: System, k: nat, wire: Wire): System {
    if k !in s.clients || !ReadWireAllowed(s, k, wire) then s
    else
      var c := s.clients[k];
      var r := GetExecution(s.tenant, c.call.po, wire);
      if c.phase.FirstRead? || c.phase.FirstAnswered? then
        var s' := SetPhase(s, k, AfterFirstRead(r));
        if AfterFirstRead(r).Posted? then
          SendPost(s', Post(k, c.call.po, r.value.revision, JObj(c.call.state)))
        else s'
      else if c.phase.ReadBack? || c.phase.ReadBackAnswered? then
        SetPhase(s, k, AfterReadBack(r))
      else s
  }

  function ApplyDeliverPost(s: System, p: Post): System {
    if p !in s.inFlight || p.po !in s.cells then s
    else
      var cell := s.cells[p.po];
      var s' := s.(delivered := s.delivered + {p});
      if cell.revision != p.expected then s'
      else s'.(cells := s.cells[p.po := Cell(cell.revision + 1, p.state)],
               accepted := s.accepted + [Accepted(p, cell)])
  }

  function ApplyReceivePost(s: System, k: nat, wire: Wire): System {
    if k !in s.clients || !s.clients[k].phase.Posted? then s
    else SetPhase(s, k, AfterPost(Request(s.tenant, wire)))
  }

  function ApplyOtherWrite(s: System, po: string, state: Json): System {
    if po !in s.cells then s
    else s.(cells := s.cells[po := Cell(s.cells[po].revision + 1, state)])
  }

  /** One step; a step that is not possible in `s` changes nothing. */
  function Apply(s: System, step: Step): System {
    match step
    case Begin(k, call) => ApplyBegin(s, k, call)
    case ServeRead(k) => ApplyServeRead(s, k)
    case ReceiveRead(k, wire) => ApplyReceiveRead(s, k, wire)
    case DeliverPost(p) => ApplyDeliverPost(s, p)
    case DropPost(p) => s.(inFlight := s.inFlight - {p})
    case ReceivePost(k, wire) => ApplyReceivePost(s, k, wire)
    case OtherWrite(po, state) => ApplyOtherWrite(s, po, state)
  }

  function Exec(s: System, steps: seq<Step>): System {
    if steps == [] then s
    else Apply(Exec(s, steps[..|steps| - 1]), steps[|steps| - 1])
  }

  predicate Initial(s: System) {
    s.clients == map[] && s.inFlight == {} && s.sent == [] && s.accepted == [] && s.delivered == {}
  }

  /** All that receiving the reply to a read can do. */
  ghost predicate ReadOutcome(s: System, k: nat, t: System) {
    || t == s
    || (k in s.clients &&
        var c := s.clients[k];
        || (exists e :: t == SetPhase(s, k, Raised(e)))
        || (c.phase.FirstAnswered? && IsSafeId(c.call.po) &&
            var seen := c.phase.seen;
            if seen.state != JNull then t == SetPhase(s, k, Returned(Execution(seen.revision, seen.state)))
            else t == SendPost(SetPhase(s, k, Posted), Post(k, c.call.po, seen.revision, JObj(c.call.state))))
        || (c.phase.ReadBackAnswered? && IsSafeId(c.call.po)
            && t == SetPhase(s, k, Returned(Execution(c.phase.seen.revision, c.phase.seen.state)))))
  }

  lemma ReadHasOutcome(s: System, k: nat, wire: Wire)
    ensures ReadOutcome(s, k, ApplyReceiveRead(s, k, wire))
  {
    if k in s.clients && ReadWireAllowed(s, k, wire) {
      var c := s.clients[k];
      var r := GetExecution(s.tenant, c.call.po, wire);
      if r.Success? {
        assert IsSafeId(c.call.po);
        TruthfulReplyRoundTrip(s.tenant, c.call.po, c.phase.seen);
      } else if c.phase.FirstRead? || c.phase.FirstAnswered? || c.phase.ReadBack? || c.phase.ReadBackAnswered? {
        assert ApplyReceiveRead(s, k, wire) == SetPhase(s, k, Raised(r.error));
      }
    }
  }

  // ---------------------------------------------------------------------
  // Any writers: a POST only ever replaces an empty record
  // ---------------------------------------------------------------------

  /** `a` was the provider's record at or before the time of `b`. */
  predicate Precedes(a: Cell, b: Cell) {
    a.revision <= b.revision && (a.revision == b.revision ==> a == b)
  }

  ghost predicate SnapshotsPrecede(s: System) {
    && (forall k :: k in s.clients && s.clients[k].phase.FirstAnswered? ==>
          && s.clients[k].call.po in s.cells
          && IsSafeId(s.clients[k].call.po)
          && Precedes(s.clients[k].phase.seen, s.cells[s.clients[k].call.po]))
    && (forall k :: k in s.clients && s.clients[k].phase.FirstRead? ==> IsSafeId(s.clients[k].call.po))
    && (forall p :: p in s.inFlight ==>
          p.po in s.cells && Precedes(Cell(p.expected, JNull), s.cells[p.po]))
    && (forall i :: 0 <= i < |s.accepted| ==>
          s.accepted[i].before == Cell(s.accepted[i].post.expected, JNull))
  }

  lemma SnapshotsAfterRead(s: System, k: nat, t: System)
    requires SnapshotsPrecede(s) && ReadOutcome(s, k, t)
    ensures SnapshotsPrecede(t)
  {
  }

  lemma SnapshotsAfterDelivery(s: System, p: Post)
    requires SnapshotsPrecede(s)
    ensures SnapshotsPrecede(ApplyDeliverPost(s, p))
  {
  }

  lemma SnapshotsPrecedeStep(s: System, step: Step)
    requires SnapshotsPrecede(s)
    ensures SnapshotsPrecede(Apply(s, step))
  {
    match step
    case ReceiveRead(k, wire) =>
      ReadHasOutcome(s, k, wire);
      SnapshotsAfterRead(s, k, ApplyReceiveRead(s, k, wire));
    case DeliverPost(p) => SnapshotsAfterDelivery(s, p);
    case _ =>
  }

  lemma {:induction false} SnapshotsPrecedeAlways(s: System, steps: seq<Step>)
    requires Initial(s)
    ensures SnapshotsPrecede(Exec(s, steps))
  {
    if steps != [] {
      SnapshotsPrecedeAlways(s, steps[..|steps| - 1]);
      SnapshotsPrecedeStep(Exec(s, steps[..|steps| - 1]), steps[|steps| - 1]);
    }
  }

  /** Whatever other writers do, no associating POST ever replaces a state. */
  lemma AssociationNeverOverwrites(s: System, steps: seq<Step>, i: nat)
    requires Initial(s) && i < |Exec(s, steps).accepted|
    ensures Exec(s, steps).accepted[i].before.state == JNull
  {
    SnapshotsPrecedeAlways(s, steps);
  }

  // ---------------------------------------------------------------------
  // Each call sends at most one POST
  // ---------------------------------------------------------------------

  predicate HasPosted(phase: Phase) {
    !phase.FirstRead? && !phase.FirstAnswered?
  }

  ghost predicate OnePostPerCall(s: System) {
    && (forall i, j :: 0 <= i < j < |s.sent| ==> s.sent[i].client != s.sent[j].client)
    && (forall p :: p in s.sent ==>
          && p.client in s.clients
          && HasPosted(s.clients[p.client].phase)
          && p.po == s.clients[p.client].call.po
          && p.state == JObj(s.clients[p.client].call.state))
    && (forall p :: p in s.inFlight ==> p in s.sent)
    && (forall p :: p in s.delivered ==> p in s.sent)
    && (forall i :: 0 <= i < |s.accepted| ==> s.accepted[i].post in s.sent)
  }

  /** A step that sends nothing keeps the rule when it only moves calls forward. */
  lemma OnePostWithoutSending(s: System, t: System)
    requires OnePostPerCall(s)
    requires t.sent == s.sent && t.inFlight <= s.inFlight && t.delivered <= s.delivered + s.inFlight
    requires forall i :: 0 <= i < |t.accepted| ==>
               (i < |s.accepted| && t.accepted[i] == s.accepted[i]) || t.accepted[i].post in s.inFlight
    requires forall k :: k in s.clients ==>
               && k in t.clients && t.clients[k].call == s.clients[k].call
               && (HasPosted(s.clients[k].phase) ==> HasPosted(t.clients[k].phase))
    ensures OnePostPerCall(t)
  {
  }

  lemma OnePostWhenSending(s: System, k: nat, post: Post)
    requires OnePostPerCall(s) && k in s.clients && !HasPosted(s.clients[k].phase)
    requires post.client == k && post.po == s.clients[k].call.po && post.state == JObj(s.clients[k].call.state)
    ensures OnePostPerCall(SendPost(SetPhase(s, k, Posted), post))
  {
    var t := SendPost(SetPhase(s, k, Posted), post);
    assert forall p :: p in s.sent ==> p in t.sent && p.client != k;
    assert post in t.sent;
    assert forall p :: p in t.sent ==> p in s.sent || p == post;
  }

  lemma OnePostAfterRead(s: System, k: nat, t: System)
    requires OnePostPerCall(s) && ReadOutcome(s, k, t)
    ensures OnePostPerCall(t)
  {
    if t.sent == s.sent {
      OnePostWithoutSending(s, t);
    } else {
      var c := s.clients[k];
      OnePostWhenSending(s, k, Post(k, c.call.po, c.phase.seen.revision, JObj(c.call.state)));
    }
  }

  lemma OnePostPerCallStep(s: System, step: Step)
    requires OnePostPerCall(s)
    ensures OnePostPerCall(Apply(s, step))
  {
    if step.ReceiveRead? {
      ReadHasOutcome(s, step.client, step.wire);
      OnePostAfterRead(s, step.client, Apply(s, step));
    } else {
      OnePostWithoutSending(s, Apply(s, step));
    }
  }

  lemma {:induction false} OnePostPerCallAlways(s: System, steps: seq<Step>)
    requires Initial(s)
    ensures OnePostPerCall(Exec(s, steps))
  {
    if steps != [] {
      OnePostPerCallAlways(s, steps[..|steps| - 1]);
      OnePostPerCallStep(Exec(s, steps[..|steps| - 1]), steps[|steps| - 1]);
    }
  }

  // ---------------------------------------------------------------------
  // Longer runs
  // ---------------------------------------------------------------------

  lemma ExecSnoc(s: System, steps: seq<Step>, step: Step)
    ensures Exec(s, steps + [step]) == Apply(Exec(s, steps), step)
  {
    assert (steps + [step])[..|steps + [step]| - 1] == steps;
  }

  lemma {:induction false} ExecConcat(s: System, a: seq<Step>, b: seq<Step>)
    ensures Exec(s, a + b) == Exec(Exec(s, a), b)
  {
    if b == [] {
      assert a + b == a;
    } else {
      var init := b[..|b| - 1];
      assert (a + b)[..|a + b| - 1] == a + init;
      ExecConcat(s, a, init);
    }
  }

  // ---------------------------------------------------------------------
  // Only associating writers: every caller learns the same state
  // ---------------------------------------------------------------------

  ghost predicate AssociatorsOnly(steps: seq<Step>) {
    forall i :: 0 <= i < |steps| ==> !steps[i].OtherWrite?
  }

  /** With only associating writers a record changes once, from empty to set. */
  predicate Before(a: Cell, b: Cell) {
    a == b || (a.state == JNull && b.state != JNull && a.revision < b.revision)
  }

  predicate HasSnapshot(phase: Phase) {
    phase.FirstAnswered? || phase.ReadBackAnswered? || phase.Returned?
  }

  ghost predicate PhaseAgrees(phase: Phase, cell: Cell) {
    match phase
    case FirstAnswered(seen) => Before(seen, cell)
    case ReadBackAnswered(seen) => Before(seen, cell)
    case Returned(x) => Before(Cell(x.revision, x.state), cell)
    case _ => true
  }

  ghost predicate Agreement(s: System) {
    && (forall k :: k in s.clients && !s.clients[k].phase.Raised? ==> IsSafeId(s.clients[k].call.po))
    && (forall k :: k in s.clients && HasSnapshot(s.clients[k].phase) ==>
          s.clients[k].call.po in s.cells && PhaseAgrees(s.clients[k].phase, s.cells[s.clients[k].call.po]))
    && (forall p :: p in s.inFlight ==> p.state.JObj? && p.po in s.cells && Before(Cell(p.expected, JNull), s.cells[p.po]))
    && (forall p :: p in s.delivered ==> p.po in s.cells && s.cells[p.po].state != JNull)
  }

  lemma AgreementAfterRead(s: System, k: nat, t: System)
    requires Agreement(s) && ReadOutcome(s, k, t)
    ensures Agreement(t)
  {
  }

  lemma AgreementAfterDelivery(s: System, p: Post)
    requires Agreement(s)
    ensures Agreement(ApplyDeliverPost(s, p))
  {
  }

  lemma AgreementStep(s: System, step: Step)
    requires Agreement(s) && !step.OtherWrite?
    ensures Agreement(Apply(s, step))
  {
    if step.ReceiveRead? {
      ReadHasOutcome(s, step.client, step.wire);
      AgreementAfterRead(s, step.client, Apply(s, step));
    } else if step.DeliverPost? {
      AgreementAfterDelivery(s, step.post);
    }
  }

  lemma {:induction false} AgreementAlways(s: System, steps: seq<Step>)
    requires Initial(s) && AssociatorsOnly(steps)
    ensures Agreement(Exec(s, steps))
  {
    if steps != [] {
      AgreementAlways(s, steps[..|steps| - 1]);
      AgreementStep(Exec(s, steps[..|steps| - 1]), steps[|steps| - 1]);
    }
  }

  /** Any two calls on one purchase order that return a state return the same
      one, at the same revision, and it is what the provider now holds. */
  lemma ReturnedStatesAgree(s: System, steps: seq<Step>, k: nat, l: nat)
    requires Initial(s) && AssociatorsOnly(steps)
    requires k in Exec(s, steps).clients && l in Exec(s, steps).clients
    requires Exec(s, steps).clients[k].phase.Returned? && Exec(s, steps).clients[l].phase.Returned?
    requires Exec(s, steps).clients[k].call.po == Exec(s, steps).clients[l].call.po
    requires Exec(s, steps).clients[k].phase.result.state != JNull
    requires Exec(s, steps).clients[l].phase.result.state != JNull
    ensures Exec(s, steps).clients[k].phase.result == Exec(s, steps).clients[l].phase.result
    ensures var t := Exec(s, steps); var po := t.clients[k].call.po;
            po in t.cells && Execution(t.cells[po].revision, t.cells[po].state) == t.clients[k].phase.result
  {
    AgreementAlways(s, steps);
    var t := Exec(s, steps);
    assert PhaseAgrees(t.clients[k].phase, t.cells[t.clients[k].call.po]);
    assert PhaseAgrees(t.clients[l].phase, t.cells[t.clients[l].call.po]);
  }

  /** The state a record gained is the one its single accepted POST carried. */
  ghost predicate Provenance(s0: System, s: System) {
    forall po | po in s.cells ::
      && po in s0.cells
      && (s.cells[po] == s0.cells[po] ||
          exists i :: 0 <= i < |s.accepted| && s.accepted[i].post.po == po
                      && s.cells[po] == Cell(s.accepted[i].before.revision + 1, s.accepted[i].post.state))
  }

  lemma {:induction false} StateComesFromAnAcceptedPost(s: System, steps: seq<Step>)
    requires Initial(s) && AssociatorsOnly(steps)
    ensures Provenance(s, Exec(s, steps))
  {
    if steps != [] {
      var init, step := steps[..|steps| - 1], steps[|steps| - 1];
      StateComesFromAnAcceptedPost(s, init);
      var s1, s2 := Exec(s, init), Exec(s, steps);
      forall po | po in s2.cells && s2.cells[po] != s.cells[po]
        ensures exists i :: 0 <= i < |s2.accepted| && s2.accepted[i].post.po == po
                            && s2.cells[po] == Cell(s2.accepted[i].before.revision + 1, s2.accepted[i].post.state)
      {
        if s2.cells[po] == s1.cells[po] {
          var i :| 0 <= i < |s1.accepted| && s1.accepted[i].post.po == po
                   && s1.cells[po] == Cell(s1.accepted[i].before.revision + 1, s1.accepted[i].post.state);
          assert s2.accepted[i] == s1.accepted[i];
        } else {
          assert s2.accepted[|s2.accepted| - 1].post.po == po;
        }
      }
    }
  }

  /** Once the provider has processed a call's POST, whether it accepted it or
      not, the call can no longer return "no state". */
  ghost predicate Settled(s: System, k: nat) {
    && k in s.clients
    && (s.clients[k].phase.Raised? ||
        (s.clients[k].call.po in s.cells && s.cells[s.clients[k].call.po].state != JNull
         && match s.clients[k].phase
            case Posted => true
            case ReadBack => true
            case ReadBackAnswered(seen) => seen.state != JNull
            case Returned(x) => x.state != JNull
            case _ => false))
  }

  lemma SettledStep(s: System, step: Step, k: nat)
    requires Agreement(s) && Settled(s, k) && !step.OtherWrite?
    ensures Settled(Apply(s, step), k)
  {
    if step.ReceiveRead? && step.client == k && s.clients[k].phase.ReadBackAnswered? {
      TruthfulReplyRoundTrip(s.tenant, s.clients[k].call.po, s.clients[k].phase.seen);
    }
  }

  lemma DeliveredIsSettled(s: System, before: seq<Step>, p: Post)
    requires Initial(s) && AssociatorsOnly(before)
    requires p in Exec(s, before).delivered
    requires p.client in Exec(s, before).clients
             && (Exec(s, before).clients[p.client].phase.Posted? || Exec(s, before).clients[p.client].phase.ReadBack?)
    ensures Settled(Exec(s, before), p.client)
  {
    AgreementAlways(s, before);
    OnePostPerCallAlways(s, before);
  }

  lemma {:induction false} DeliveredCallNeverReturnsNull(s: System, before: seq<Step>, after: seq<Step>, p: Post)
    requires Initial(s) && AssociatorsOnly(before) && AssociatorsOnly(after)
    requires p in Exec(s, before).delivered
    requires p.client in Exec(s, before).clients
             && (Exec(s, before).clients[p.client].phase.Posted? || Exec(s, before).clients[p.client].phase.ReadBack?)
    ensures Settled(Exec(s, before + after), p.client)
  {
    if after == [] {
      assert before + after == before;
      DeliveredIsSettled(s, before, p);
    } else {
      var init := after[..|after| - 1];
      assert (before + after)[..|before + after| - 1] == before + init;
      DeliveredCallNeverReturnsNull(s, before, init, p);
      AgreementAlways(s, before + init);
      SettledStep(Exec(s, before + init), after[|after| - 1], p.client);
    }
  }
}
