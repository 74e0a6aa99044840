/**
 One-time human approvals, and the decision packets that spend them. Each call is
 one transaction: a call that fails leaves no trace.

 `history` is a ghost record of what happened; the review entries in it are the
 rows of the audit log.
 */
module ApprovalGates {
  import opened Wrappers

  /** What an approval is bound to. */
  datatype Binding = Binding(actionType: string, resourceType: string, resourceId: string, tenantId: string)

  datatype Status = Pending | Approved | Rejected

  datatype ApprovalRequest = ApprovalRequest(binding: Binding, status: Status, reviewedBy: Option<string>, consumedAt: Option<string>)

  datatype DecisionPacket = DecisionPacket(ownerTenant: string, approved: bool, recommended: Option<string>)

  datatype Entry =
    | Created(id: string, binding: Binding)
    | Reviewed(id: string, approved: bool, reviewer: string)
    | Granted(id: string, binding: Binding)

  datatype QuoteEvent = QuoteEvent(packetId: string, optionId: string, tenantId: string)

  /** `quoteApproved` lists the QUOTE_APPROVED events, oldest first. */
  datatype World = World(
    requests: map<string, ApprovalRequest>,
    packets: map<string, DecisionPacket>,
    quoteApproved: seq<QuoteEvent>,
    history: seq<Entry>)

  const VALID_ACTION_TYPES: set<string> := {
    "RFQ_SEND", "ORDER_CONFIRM", "EXPEDITE_NOTIFY", "SHIPMENT_APPROVE",
    "BUYER_SIGNOFF", "PARTICIPANT_REPLACE", "QC_ESCALATE", "QUOTE_APPROVE"}

  function QuoteBinding(packetId: string, tenantId: string): Binding {
    Binding("QUOTE_APPROVE", "decision_packet", packetId, tenantId)
  }

  datatype Op =
    | CreateRequest(freshId: string, binding: Binding)
    | Review(id: string, approve: bool, reviewer: string)
    | Require(id: string, binding: Binding, now: string)
    | GeneratePacket(packetId: string, freshId: string, tenantId: string, ownerTenant: string)
    | ApproveOption(packetId: string, optionId: string, id: string, tenantId: string, now: string)

  /** The approval may be spent on exactly this action, now. */
  predicate Honoured(w: World, id: string, binding: Binding) {
    && id in w.requests
    && w.requests[id].status == Approved
    && w.requests[id].consumedAt.None?
    && w.requests[id].binding == binding
  }

  function AddRequest(w: World, id: string, binding: Binding): World {
    w.(requests := w.requests[id := ApprovalRequest(binding, Pending, None, None)],
       history := w.history + [Created(id, binding)])
  }

  function Consume(w: World, id: string, binding: Binding, now: string): World
    requires id in w.requests
  {
    w.(requests := w.requests[id := w.requests[id].(consumedAt := Some(now))],
       history := w.history + [Granted(id, binding)])
  }

  function Do(w: World, op: Op): World {
    match op
    case CreateRequest(id, binding) =>
      if binding.actionType !in VALID_ACTION_TYPES || id in w.requests then w else AddRequest(w, id, binding)
    case Review(id, approve, reviewer) =>
      if id !in w.requests then w
      else w.(requests := w.requests[id := w.requests[id].(status := if approve then Approved else Rejected, reviewedBy := Some(reviewer))],
              history := w.history + [Reviewed(id, approve, reviewer)])
    case Require(id, binding, now) =>
      if Honoured(w, id, binding) then Consume(w, id, binding, now) else w
    case GeneratePacket(packetId, id, tenantId, ownerTenant) =>
      if packetId in w.packets || id in w.requests then w
      else AddRequest(w.(packets := w.packets[packetId := DecisionPacket(ownerTenant, false, None)]),
                      id, QuoteBinding(packetId, tenantId))
    case ApproveOption(packetId, optionId, id, tenantId, now) =>
      if !Honoured(w, id, QuoteBinding(packetId, tenantId)) || packetId !in w.packets
         || w.packets[packetId].ownerTenant != tenantId
      then w
      else
        var w' := Consume(w, id, QuoteBinding(packetId, tenantId), now);
        w'.(packets := w.packets[packetId := w.packets[packetId].(approved := true, recommended := Some(optionId))],
            quoteApproved := w.quoteApproved + [QuoteEvent(packetId, optionId, tenantId)])
  }

  datatype HttpError = HttpError(status: int)

  /** Only the status and the reviewer of this one request change. */
  ghost predicate ReviewedAs(before: map<string, ApprovalRequest>, after: map<string, ApprovalRequest>, id: string, status: Status, reviewer: string)
    requires id in before
  {
    after == before[id := ApprovalRequest(before[id].binding, status, Some(reviewer), before[id].consumedAt)]
  }

  /** Only the spent mark of this one request changes, from unset to `now`. */
  ghost predicate SpentNow(before: map<string, ApprovalRequest>, after: map<string, ApprovalRequest>, id: string, now: string) {
    && id in before && before[id].consumedAt == None
    && after == before[id := ApprovalRequest(before[id].binding, before[id].status, before[id].reviewedBy, Some(now))]
  }

  class ApprovalService {
    var requests: map<string, ApprovalRequest>
    var packets: map<string, DecisionPacket>
    var quoteApproved: seq<QuoteEvent>
    ghost var history: seq<Entry>

    ghost function State(): World
      reads this
    {
      World(requests, packets, quoteApproved, history)
    }

    constructor ()
      ensures State() == Empty()
    {
      requests, packets, quoteApproved, history := map[], map[], [], [];
    }

    method CreateApprovalRequest(freshId: string, binding: Binding) returns (r: Result<string, string>)
      requires freshId !in requests
      modifies this
      ensures State() == Do(old(State()), CreateRequest(freshId, binding))
      ensures r.Success? <==> binding.actionType in VALID_ACTION_TYPES
      ensures r.Success? ==>
                && r.value == freshId
                && requests == old(requests)[freshId := ApprovalRequest(binding, Pending, None, None)]
                && history == old(history) + [Created(freshId, binding)]
      ensures r.Failure? ==> requests == old(requests) && history == old(history)
      ensures packets == old(packets) && quoteApproved == old(quoteApproved)
    {
      if binding.actionType !in VALID_ACTION_TYPES {
        return Failure("Unknown action_type");
      }
      requests := requests[freshId := ApprovalRequest(binding, Pending, None, None)];
      history := history + [Created(freshId, binding)];
      r := Success(freshId);
    }

    method ApproveRequest(id: string, reviewedBy: string) returns (r: Result<ApprovalRequest, HttpError>)
      modifies this
      ensures State() == Do(old(State()), Review(id, true, reviewedBy))
      ensures id in old(requests) ==> ReviewedAs(old(requests), requests, id, Approved, reviewedBy)
      ensures id in old(requests) ==> history == old(history) + [Reviewed(id, true, reviewedBy)]
      ensures id !in old(requests) ==> requests == old(requests) && history == old(history)
      ensures packets == old(packets) && quoteApproved == old(quoteApproved)
      ensures r == if id in old(requests) then Success(requests[id]) else Failure(HttpError(404))
    {
      if id !in requests {
        return Failure(HttpError(404));
      }
      requests := requests[id := requests[id].(status := Approved, reviewedBy := Some(reviewedBy))];
      history := history + [Reviewed(id, true, reviewedBy)];
      r := Success(requests[id]);
    }

    method RejectRequest(id: string, reviewedBy: string) returns (r: Result<ApprovalRequest, HttpError>)
      modifies this
      ensures State() == Do(old(State()), Review(id, false, reviewedBy))
      ensures id in old(requests) ==> ReviewedAs(old(requests), requests, id, Rejected, reviewedBy)
      ensures id in old(requests) ==> history == old(history) + [Reviewed(id, false, reviewedBy)]
      ensures id !in old(requests) ==> requests == old(requests) && history == old(history)
      ensures packets == old(packets) && quoteApproved == old(quoteApproved)
      ensures r == if id in old(requests) then Success(requests[id]) else Failure(HttpError(404))
    {
      if id !in requests {
        return Failure(HttpError(404));
      }
      requests := requests[id := requests[id].(status := Rejected, reviewedBy := Some(reviewedBy))];
      history := history + [Reviewed(id, false, reviewedBy)];
      r := Success(requests[id]);
    }

    /** Every refusal is the same 403 and changes nothing. */
    method RequireApproved(id: string, binding: Binding, now: string) returns (r: Result<ApprovalRequest, HttpError>)
      modifies this`requests, this`history
      ensures State() == Do(old(State()), Require(id, binding, now))
      ensures r.Success? <==> Honoured(old(State()), id, binding)
      ensures r.Failure? ==> r.error == HttpError(403) && requests == old(requests) && history == old(history)
      ensures r.Success? ==>
                && SpentNow(old(requests), requests, id, now)
                && old(requests)[id].status == Approved && old(requests)[id].binding == binding
                && r.value == requests[id]
                && history == old(history) + [Granted(id, binding)]
    {
      var denied := Failure(HttpError(403));
      if id !in requests {
        return denied;
      }
      var req := requests[id];
      if req.status != Approved {
        return denied;
      }
      if req.consumedAt.Some? {
        return denied;
      }
      if req.binding.tenantId != binding.tenantId {
        return denied;
      }
      if req.binding.actionType != binding.actionType {
        return denied;
      }
      if req.binding.resourceType != binding.resourceType {
        return denied;
      }
      if req.binding.resourceId != binding.resourceId {
        return denied;
      }
      req := req.(consumedAt := Some(now));
      requests := requests[id := req];
      history := history + [Granted(id, binding)];
      r := Success(req);
    }

    /** The tail of `generate_decision_packet`: the packet and its approval request. */
    method GenerateDecisionPacket(packetId: string, freshId: string, tenantId: string, ownerTenant: string)
      requires packetId !in packets && freshId !in requests
      modifies this
      ensures State() == Do(old(State()), GeneratePacket(packetId, freshId, tenantId, ownerTenant))
      ensures packets == old(packets)[packetId := DecisionPacket(ownerTenant, false, None)]
      ensures requests == old(requests)[freshId :=
                ApprovalRequest(Binding("QUOTE_APPROVE", "decision_packet", packetId, tenantId), Pending, None, None)]
      ensures quoteApproved == old(quoteApproved)
    {
      packets := packets[packetId := DecisionPacket(ownerTenant, false, None)];
      var r := CreateApprovalRequest(freshId, QuoteBinding(packetId, tenantId));
    }

    /** Spends the approval, then needs the packet to belong to the tenant; when it
        does not, the transaction is abandoned and the approval stays unspent. */
    method ApproveDecisionOption(packetId: string, optionId: string, id: string, tenantId: string, now: string)
      returns (r: Result<DecisionPacket, HttpError>)
      modifies this
      ensures State() == Do(old(State()), ApproveOption(packetId, optionId, id, tenantId, now))
      ensures r.Success? <==>
                && Honoured(old(State()), id, Binding("QUOTE_APPROVE", "decision_packet", packetId, tenantId))
                && packetId in old(packets) && old(packets)[packetId].ownerTenant == tenantId
      ensures r.Success? ==>
                && SpentNow(old(requests), requests, id, now)
                && history == old(history) + [Granted(id, Binding("QUOTE_APPROVE", "decision_packet", packetId, tenantId))]
                && packets == old(packets)[packetId := DecisionPacket(tenantId, true, Some(optionId))]
                && r.value == packets[packetId]
                && quoteApproved == old(quoteApproved) + [QuoteEvent(packetId, optionId, tenantId)]
      ensures r.Failure? ==> State() == old(State())
      ensures r.Failure? ==>
                r.error == HttpError(if Honoured(old(State()), id, QuoteBinding(packetId, tenantId)) then 404 else 403)
    {
      var savedRequests := requests;
      ghost var savedHistory := history;
      var guard := RequireApproved(id, QuoteBinding(packetId, tenantId), now);
      if guard.Failure? {
        return Failure(guard.error);
      }
      if packetId !in packets || packets[packetId].ownerTenant != tenantId {
        requests, history := savedRequests, savedHistory;
        return Failure(HttpError(404));
      }
      var packet := packets[packetId].(approved := true, recommended := Some(optionId));
      packets := packets[packetId := packet];
      quoteApproved := quoteApproved + [QuoteEvent(packetId, optionId, tenantId)];
      r := Success(packet);
    }
  }

  function Empty(): World {
    World(map[], map[], [], [])
  }

  function Run(ops: seq<Op>): World {
    if ops == [] then Empty() else Do(Run(ops[..|ops| - 1]), ops[|ops| - 1])
  }

  // ---------------------------------------------------------------------
  // Reading the history
  // ---------------------------------------------------------------------

  /** The binding an approval was created with. */
  function BindingOf(h: seq<Entry>, id: string): Option<Binding> {
    if h == [] then None
    else
      var before := BindingOf(h[..|h| - 1], id);
      if before.Some? then before
      else if h[|h| - 1].Created? && h[|h| - 1].id == id then Some(h[|h| - 1].binding)
      else None
  }

  /** Whether the last review of an approval, if any, was an approval. */
  function LastReview(h: seq<Entry>, id: string): Option<bool> {
    if h == [] then None
    else if h[|h| - 1].Reviewed? && h[|h| - 1].id == id then Some(h[|h| - 1].approved)
    else LastReview(h[..|h| - 1], id)
  }

  ghost predicate EverGranted(h: seq<Entry>, id: string) {
    exists k :: 0 <= k < |h| && h[k].Granted? && h[k].id == id
  }

  /** A grant was owed: the approval existed with this very binding, its last review
      was an approval, and it had never been granted. */
  ghost predicate Justified(h: seq<Entry>, k: nat)
    requires k < |h|
  {
    h[k].Granted? ==>
      && BindingOf(h[..k], h[k].id) == Some(h[k].binding)
      && LastReview(h[..k], h[k].id) == Some(true)
      && !EverGranted(h[..k], h[k].id)
  }

  ghost predicate Recorded(w: World, id: string) {
    var h := w.history;
    if id in w.requests then
      && BindingOf(h, id) == Some(w.requests[id].binding)
      && w.requests[id].status == (match LastReview(h, id)
                                   case None => Pending
                                   case Some(ok) => if ok then Approved else Rejected)
      && (w.requests[id].consumedAt.Some? <==> EverGranted(h, id))
    else
      BindingOf(h, id) == None && LastReview(h, id) == None && !EverGranted(h, id)
  }

  lemma RecordedAfter(w: World, t: World, e: Entry, id: string)
    requires Recorded(w, id) && t.history == w.history + [e]
    ensures BindingOf(t.history, id) ==
            (if BindingOf(w.history, id).Some? then BindingOf(w.history, id)
             else if e.Created? && e.id == id then Some(e.binding) else None)
    ensures LastReview(t.history, id) == if e.Reviewed? && e.id == id then Some(e.approved) else LastReview(w.history, id)
    ensures EverGranted(t.history, id) <==> EverGranted(w.history, id) || (e.Granted? && e.id == id)
  {
    assert t.history[..|t.history| - 1] == w.history;
    if EverGranted(w.history, id) {
      var k :| 0 <= k < |w.history| && w.history[k].Granted? && w.history[k].id == id;
      assert t.history[k] == w.history[k];
    }
    if e.Granted? && e.id == id {
      assert t.history[|w.history|] == e;
    }
  }

  /** One operation adds at most one entry to the history. */
  lemma OneEntry(w: World, op: Op)
    ensures Do(w, op).history == w.history || exists e :: Do(w, op).history == w.history + [e]
  {
  }

  lemma RecordedStep(w: World, op: Op, id: string)
    requires Recorded(w, id)
    ensures Recorded(Do(w, op), id)
  {
    var t := Do(w, op);
    if t.history != w.history {
      OneEntry(w, op);
      var e :| t.history == w.history + [e];
      RecordedAfter(w, t, e, id);
    }
  }

  lemma {:induction false} AlwaysRecorded(ops: seq<Op>, id: string)
    ensures Recorded(Run(ops), id)
  {
    if ops != [] {
      AlwaysRecorded(ops[..|ops| - 1], id);
      RecordedStep(Run(ops[..|ops| - 1]), ops[|ops| - 1], id);
    }
  }

  /** Over every run of creations, reviews, guards and packet approvals: each grant
      is of the action, resource and tenant fixed when the approval was created,
      the last review before it was an approval, and it is the first. */
  lemma {:induction false} GrantsAreJustified(ops: seq<Op>, k: nat)
    requires k < |Run(ops).history|
    ensures Justified(Run(ops).history, k)
  {
    var w := Run(ops[..|ops| - 1]);
    var h, h' := w.history, Run(ops).history;
    OneEntry(w, ops[|ops| - 1]);
    if k < |h| {
      GrantsAreJustified(ops[..|ops| - 1], k);
      assert h'[..k] == h[..k];
    } else {
      AlwaysRecorded(ops[..|ops| - 1], h'[k].id);
      assert h'[..k] == h;
    }
  }

  /** So no approval is ever granted twice, whatever reviews come in between. */
  lemma GrantedAtMostOnce(ops: seq<Op>, i: nat, j: nat)
    requires i < j < |Run(ops).history|
    requires Run(ops).history[i].Granted? && Run(ops).history[j].Granted?
    ensures Run(ops).history[i].id != Run(ops).history[j].id
  {
    GrantsAreJustified(ops, j);
    var h := Run(ops).history;
    assert h[..j][i] == h[i];
  }

  lemma {:induction false} RunConcat(earlier: seq<Op>, later: seq<Op>, id: string)
    requires id in Run(earlier).requests && Run(earlier).requests[id].consumedAt.Some?
    ensures id in Run(earlier + later).requests && Run(earlier + later).requests[id].consumedAt.Some?
  {
    if later == [] {
      assert earlier + later == earlier;
    } else {
      var init := later[..|later| - 1];
      assert (earlier + later)[..|earlier + later| - 1] == earlier + init;
      RunConcat(earlier, init, id);
      ApprovalsPersist(Run(earlier + init), later[|later| - 1], id);
    }
  }

  /** The operation is a guard that this approval lets through. */
  predicate Passes(w: World, op: Op, id: string) {
    match op
    case Require(i, binding, _) => i == id && Honoured(w, id, binding)
    case ApproveOption(packetId, _, i, tenantId, _) =>
      && i == id && Honoured(w, id, QuoteBinding(packetId, tenantId))
      && packetId in w.packets && w.packets[packetId].ownerTenant == tenantId
    case _ => false
  }

  /** Once an approval has let an operation through it is spent: whatever comes
      later, it is honoured for no action at all. */
  lemma SpentForGood(earlier: seq<Op>, op: Op, later: seq<Op>, id: string, binding: Binding)
    requires Passes(Run(earlier), op, id)
    ensures id in Run(earlier + [op]).requests && Run(earlier + [op]).requests[id].consumedAt == Some(op.now)
    ensures !Honoured(Run(earlier + [op] + later), id, binding)
  {
    var passed := earlier + [op];
    assert passed[..|passed| - 1] == earlier;
    assert Run(passed) == Do(Run(earlier), op);
    RunConcat(passed, later, id);
  }

  // ---------------------------------------------------------------------
  // Packets never outspend their approvals
  // ---------------------------------------------------------------------

  predicate IsQuoteApprovalFor(b: Binding, packetId: string) {
    b.actionType == "QUOTE_APPROVE" && b.resourceType == "decision_packet" && b.resourceId == packetId
  }

  function ApprovalsFor(w: World, packetId: string): set<string> {
    set id | id in w.requests && IsQuoteApprovalFor(w.requests[id].binding, packetId)
  }

  function SpentFor(w: World, packetId: string): set<string> {
    set id | id in w.requests && IsQuoteApprovalFor(w.requests[id].binding, packetId) && w.requests[id].consumedAt.Some?
  }

  /** How many events are for a packet. */
  function CountOf(s: seq<QuoteEvent>, x: string): nat {
    if s == [] then 0 else CountOf(s[..|s| - 1], x) + if s[|s| - 1].packetId == x then 1 else 0
  }

  /** An approval once created keeps its binding, and once spent stays spent. */
  lemma ApprovalsPersist(w: World, op: Op, id: string)
    requires id in w.requests
    ensures id in Do(w, op).requests && Do(w, op).requests[id].binding == w.requests[id].binding
    ensures w.requests[id].consumedAt.Some? ==> Do(w, op).requests[id].consumedAt.Some?
  {
  }

  lemma SpentOnlyGrows(w: World, op: Op, packetId: string)
    ensures SpentFor(w, packetId) <= SpentFor(Do(w, op), packetId)
  {
    forall id | id in SpentFor(w, packetId)
      ensures id in SpentFor(Do(w, op), packetId)
    {
      ApprovalsPersist(w, op, id);
    }
  }

  lemma SpendingStep(w: World, op: Op, packetId: string)
    requires CountOf(w.quoteApproved, packetId) <= |SpentFor(w, packetId)|
    ensures CountOf(Do(w, op).quoteApproved, packetId) <= |SpentFor(Do(w, op), packetId)|
  {
    var before, after := SpentFor(w, packetId), SpentFor(Do(w, op), packetId);
    SpentOnlyGrows(w, op, packetId);
    SubsetSize(before, after);
    if Do(w, op).quoteApproved != w.quoteApproved {
      var e := QuoteEvent(op.packetId, op.optionId, op.tenantId);
      assert Do(w, op).quoteApproved == w.quoteApproved + [e];
      assert (w.quoteApproved + [e])[..|w.quoteApproved|] == w.quoteApproved;
      if op.packetId == packetId {
        assert op.id in after && op.id !in before;
        SubsetSize(before, after - {op.id});
      }
    }
  }

  lemma {:induction false} SubsetSize(a: set<string>, b: set<string>)
    requires a <= b
    ensures |a| <= |b|
    decreases a
  {
    if a != {} {
      var x :| x in a;
      SubsetSize(a - {x}, b - {x});
    }
  }

  /** The QUOTE_APPROVED events of a packet never outnumber the QUOTE_APPROVE
      approvals created for it: each event has spent one of its own. */
  lemma {:induction false} QuotesNeverOutnumberApprovals(ops: seq<Op>, packetId: string)
    ensures CountOf(Run(ops).quoteApproved, packetId) <= |SpentFor(Run(ops), packetId)| <= |ApprovalsFor(Run(ops), packetId)|
  {
    if ops != [] {
      QuotesNeverOutnumberApprovals(ops[..|ops| - 1], packetId);
      SpendingStep(Run(ops[..|ops| - 1]), ops[|ops| - 1], packetId);
    }
    SubsetSize(SpentFor(Run(ops), packetId), ApprovalsFor(Run(ops), packetId));
  }

  // ---------------------------------------------------------------------
  // Events and packets
  // ---------------------------------------------------------------------

  /** The option of the last event of a packet. */
  function LastOption(s: seq<QuoteEvent>, packetId: string): Option<string> {
    if s == [] then None
    else if s[|s| - 1].packetId == packetId then Some(s[|s| - 1].optionId)
    else LastOption(s[..|s| - 1], packetId)
  }

  /** Every event is for a packet of its own tenant, and a packet is approved, with
      the option of its last event, exactly when it has an event. */
  ghost predicate EventsFitPackets(w: World) {
    && (forall i :: 0 <= i < |w.quoteApproved| ==>
          && w.quoteApproved[i].packetId in w.packets
          && w.packets[w.quoteApproved[i].packetId].ownerTenant == w.quoteApproved[i].tenantId)
    && (forall p :: p in w.packets ==>
          && w.packets[p].recommended == LastOption(w.quoteApproved, p)
          && (w.packets[p].approved <==> LastOption(w.quoteApproved, p).Some?))
  }

  /** The last event of a packet, if it has any. */
  lemma {:induction false} LastEvent(s: seq<QuoteEvent>, packetId: string) returns (k: Option<nat>)
    ensures match k
            case None => LastOption(s, packetId) == None && forall i :: 0 <= i < |s| ==> s[i].packetId != packetId
            case Some(i) =>
              && i < |s| && s[i].packetId == packetId && LastOption(s, packetId) == Some(s[i].optionId)
              && forall j :: i < j < |s| ==> s[j].packetId != packetId
  {
    if s == [] {
      k := None;
    } else if s[|s| - 1].packetId == packetId {
      k := Some(|s| - 1);
    } else {
      k := LastEvent(s[..|s| - 1], packetId);
      assert forall i :: 0 <= i < |s| - 1 ==> s[..|s| - 1][i] == s[i];
    }
  }

  lemma NewEventFits(w: World, packetId: string, optionId: string)
    requires EventsFitPackets(w) && packetId in w.packets
    ensures var tenant := w.packets[packetId].ownerTenant;
            EventsFitPackets(w.(packets := w.packets[packetId := DecisionPacket(tenant, true, Some(optionId))],
                                quoteApproved := w.quoteApproved + [QuoteEvent(packetId, optionId, tenant)]))
  {
    var after := w.quoteApproved + [QuoteEvent(packetId, optionId, w.packets[packetId].ownerTenant)];
    assert after[..|after| - 1] == w.quoteApproved;
    assert forall p :: LastOption(after, p) == if p == packetId then Some(optionId) else LastOption(w.quoteApproved, p);
  }

  lemma NewPacketFits(w: World, packetId: string, ownerTenant: string)
    requires EventsFitPackets(w) && packetId !in w.packets
    ensures EventsFitPackets(w.(packets := w.packets[packetId := DecisionPacket(ownerTenant, false, None)]))
  {
    var k := LastEvent(w.quoteApproved, packetId);
  }

  /** Whether events fit packets depends on nothing else. */
  lemma FitDependsOn(w: World, t: World)
    requires EventsFitPackets(w) && t.packets == w.packets && t.quoteApproved == w.quoteApproved
    ensures EventsFitPackets(t)
  {
  }

  lemma EventsFitStep(w: World, op: Op)
    requires EventsFitPackets(w)
    ensures EventsFitPackets(Do(w, op))
  {
    var t := Do(w, op);
    if t.quoteApproved != w.quoteApproved {
      NewEventFits(w, op.packetId, op.optionId);
      FitDependsOn(w.(packets := t.packets, quoteApproved := t.quoteApproved), t);
    } else if t.packets != w.packets {
      NewPacketFits(w, op.packetId, op.ownerTenant);
      FitDependsOn(w.(packets := t.packets), t);
    } else {
      FitDependsOn(w, t);
    }
  }

  lemma {:induction false} EventsAlwaysFitPackets(ops: seq<Op>)
    ensures EventsFitPackets(Run(ops))
  {
    if ops != [] {
      EventsAlwaysFitPackets(ops[..|ops| - 1]);
      EventsFitStep(Run(ops[..|ops| - 1]), ops[|ops| - 1]);
    }
  }

  /** Over any run, an approved packet was last approved by its own tenant, with the
      option that it recommends. */
  lemma ApprovedByItsTenant(ops: seq<Op>, packetId: string) returns (i: nat)
    requires packetId in Run(ops).packets && Run(ops).packets[packetId].approved
    ensures var w := Run(ops);
            && i < |w.quoteApproved|
            && w.packets[packetId].recommended.Some?
            && w.quoteApproved[i] == QuoteEvent(packetId, w.packets[packetId].recommended.value, w.packets[packetId].ownerTenant)
            && forall j :: i < j < |w.quoteApproved| ==> w.quoteApproved[j].packetId != packetId
  {
    EventsAlwaysFitPackets(ops);
    var k := LastEvent(Run(ops).quoteApproved, packetId);
    i := k.value;
  }
}
