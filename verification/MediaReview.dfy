/**
 The buyer's review of the media uploaded to a milestone: uploads, confirmations
 and rejections over one store of evidence records.
 */
module MediaReview {
  import opened Wrappers

  datatype MediaType = Image | Video | Document | ShippingLabel

  datatype ReviewStatus = Pending | Confirmed | Rejected | NotRequired

  /** A record is known by its position: records are only ever added. */
  datatype MediaEvidence = MediaEvidence(
    projectId: string,
    milestoneId: string,
    mediaType: MediaType,
    reviewStatus: ReviewStatus,
    notes: Option<string>)

  datatype Verdict = Confirm | Reject(reason: string)

  datatype Op =
    | Upload(projectId: string, milestoneId: string, mediaType: MediaType, count: int)
    | Review(milestoneId: string, verdict: Verdict)

  // ---------------------------------------------------------------------
  // One step
  // ---------------------------------------------------------------------

  function NewEvidence(projectId: string, milestoneId: string, mediaType: MediaType): MediaEvidence {
    MediaEvidence(projectId, milestoneId, mediaType, if mediaType.ShippingLabel? then NotRequired else Pending, None)
  }

  predicate Awaits(e: MediaEvidence, milestone: string) {
    e.milestoneId == milestone && e.reviewStatus.Pending?
  }

  function Judged(e: MediaEvidence, verdict: Verdict): MediaEvidence {
    match verdict
    case Confirm => e.(reviewStatus := Confirmed)
    case Reject(reason) => e.(reviewStatus := Rejected, notes := Some(reason))
  }

  function Mark(e: MediaEvidence, milestone: string, verdict: Verdict): MediaEvidence {
    if Awaits(e, milestone) then Judged(e, verdict) else e
  }

  function MarkAll(items: seq<MediaEvidence>, milestone: string, verdict: Verdict): (r: seq<MediaEvidence>)
    ensures |r| == |items| && forall i :: 0 <= i < |items| ==> r[i] == Mark(items[i], milestone, verdict)
  {
    seq(|items|, i requires 0 <= i < |items| => Mark(items[i], milestone, verdict))
  }

  /** `range(count)` is empty for a negative count. */
  function Uploads(count: int): nat {
    if count < 0 then 0 else count
  }

  function Copies(e: MediaEvidence, n: nat): (r: seq<MediaEvidence>)
    ensures |r| == n && forall i :: 0 <= i < n ==> r[i] == e
  {
    seq(n, i => e)
  }

  function Do(items: seq<MediaEvidence>, op: Op): seq<MediaEvidence> {
    match op
    case Upload(p, m, t, count) => items + Copies(NewEvidence(p, m, t), Uploads(count))
    case Review(m, v) => MarkAll(items, m, v)
  }

  function Run(items: seq<MediaEvidence>, ops: seq<Op>): seq<MediaEvidence>
    decreases ops
  {
    if ops == [] then items else Run(Do(items, ops[0]), ops[1..])
  }

  /** How many records of a milestone have the given status. */
  function Count(items: seq<MediaEvidence>, milestone: string, status: ReviewStatus): nat {
    if items == [] then 0
    else (if items[0].milestoneId == milestone && items[0].reviewStatus == status then 1 else 0)
         + Count(items[1..], milestone, status)
  }

  lemma {:induction false} CountConcat(a: seq<MediaEvidence>, b: seq<MediaEvidence>, milestone: string, status: ReviewStatus)
    ensures Count(a + b, milestone, status) == Count(a, milestone, status) + Count(b, milestone, status)
  {
    if a == [] {
      assert a + b == b;
    } else {
      assert (a + b)[1..] == a[1..] + b;
      CountConcat(a[1..], b, milestone, status);
    }
  }

  // ---------------------------------------------------------------------
  // The store
  // ---------------------------------------------------------------------

  class MediaStore {
    var items: seq<MediaEvidence>
    ghost var log: seq<Op>

    ghost predicate Valid()
      reads this
    {
      items == Run([], log)
    }

    constructor ()
      ensures Valid() && items == [] && log == []
    {
      items := [];
      log := [];
    }

    method UploadMediaEvidence(projectId: string, milestoneId: string, mediaType: MediaType, count: int)
      returns (evidences: seq<MediaEvidence>)
      requires Valid()
      modifies this
      ensures Valid() && log == old(log) + [Upload(projectId, milestoneId, mediaType, count)]
      ensures items == old(items) + evidences && |evidences| == Uploads(count)
      ensures |evidences| == if count < 0 then 0 else count
      ensures forall i :: 0 <= i < |evidences| ==>
                evidences[i] == MediaEvidence(projectId, milestoneId, mediaType,
                                              if mediaType == ShippingLabel then NotRequired else Pending, None)
      ensures items == Do(old(items), Upload(projectId, milestoneId, mediaType, count))
    {
      evidences := [];
      var i := 0;
      while i < count
        invariant 0 <= i <= Uploads(count) && |evidences| == i
        invariant items == old(items) + evidences && log == old(log)
        invariant forall k :: 0 <= k < i ==> evidences[k] == NewEvidence(projectId, milestoneId, mediaType)
      {
        var status := if mediaType != ShippingLabel then Pending else NotRequired;
        var e := MediaEvidence(projectId, milestoneId, mediaType, status, None);
        items := items + [e];
        evidences := evidences + [e];
        i := i + 1;
      }
      assert evidences == Copies(NewEvidence(projectId, milestoneId, mediaType), Uploads(count));
      log := log + [Upload(projectId, milestoneId, mediaType, count)];
      RunConcat([], old(log), [Upload(projectId, milestoneId, mediaType, count)]);
    }

    method MarkMediaBuyerConfirmed(milestoneId: string) returns (confirmedCount: nat)
      requires Valid()
      modifies this
      ensures Valid() && log == old(log) + [Review(milestoneId, Confirm)]
      ensures items == MarkAll(old(items), milestoneId, Confirm)
      ensures |items| == |old(items)| && forall i :: 0 <= i < |items| ==>
                var e := old(items)[i];
                items[i] == if e.milestoneId == milestoneId && e.reviewStatus == Pending
                            then MediaEvidence(e.projectId, e.milestoneId, e.mediaType, Confirmed, e.notes)
                            else e
      ensures confirmedCount == Count(old(items), milestoneId, Pending)
    {
      var was := items;
      confirmedCount := 0;
      var i := 0;
      while i < |items|
        invariant 0 <= i <= |items| == |was| && log == old(log)
        invariant forall k :: 0 <= k < i ==> items[k] == Mark(was[k], milestoneId, Confirm)
        invariant items[i..] == was[i..]
        invariant confirmedCount + Count(was[i..], milestoneId, Pending) == Count(was, milestoneId, Pending)
      {
        var e := items[i];
        assert e == was[i..][0] && was[i..][1..] == was[i + 1..] && items[i..][1..] == items[i + 1..];
        if e.milestoneId == milestoneId && e.reviewStatus == Pending {
          items := items[i := e.(reviewStatus := Confirmed)];
          confirmedCount := confirmedCount + 1;
        }
        i := i + 1;
      }
      assert items == MarkAll(was, milestoneId, Confirm);
      log := log + [Review(milestoneId, Confirm)];
      RunConcat([], old(log), [Review(milestoneId, Confirm)]);
    }

    method MarkMediaBuyerRejected(milestoneId: string, reason: string) returns (rejectedCount: nat)
      requires Valid()
      modifies this
      ensures Valid() && log == old(log) + [Review(milestoneId, Reject(reason))]
      ensures items == MarkAll(old(items), milestoneId, Reject(reason))
      ensures |items| == |old(items)| && forall i :: 0 <= i < |items| ==>
                var e := old(items)[i];
                items[i] == if e.milestoneId == milestoneId && e.reviewStatus == Pending
                            then MediaEvidence(e.projectId, e.milestoneId, e.mediaType, Rejected, Some(reason))
                            else e
      ensures rejectedCount == Count(old(items), milestoneId, Pending)
    {
      var was := items;
      rejectedCount := 0;
      var i := 0;
      while i < |items|
        invariant 0 <= i <= |items| == |was| && log == old(log)
        invariant forall k :: 0 <= k < i ==> items[k] == Mark(was[k], milestoneId, Reject(reason))
        invariant items[i..] == was[i..]
        invariant rejectedCount + Count(was[i..], milestoneId, Pending) == Count(was, milestoneId, Pending)
      {
        var e := items[i];
        assert e == was[i..][0] && was[i..][1..] == was[i + 1..] && items[i..][1..] == items[i + 1..];
        if e.milestoneId == milestoneId && e.reviewStatus == Pending {
          items := items[i := e.(reviewStatus := Rejected, notes := Some(reason))];
          rejectedCount := rejectedCount + 1;
        }
        i := i + 1;
      }
      assert items == MarkAll(was, milestoneId, Reject(reason));
      log := log + [Review(milestoneId, Reject(reason))];
      RunConcat([], old(log), [Review(milestoneId, Reject(reason))]);
    }
  }

  lemma {:induction false} RunConcat(items: seq<MediaEvidence>, a: seq<Op>, b: seq<Op>)
    decreases a
    ensures Run(items, a + b) == Run(Run(items, a), b)
  {
    if a == [] {
      assert a + b == b;
    } else {
      assert (a + b)[1..] == a[1..] + b;
      RunConcat(Do(items, a[0]), a[1..], b);
    }
  }

  // ---------------------------------------------------------------------
  // What was uploaded is pending or was counted once
  // ---------------------------------------------------------------------

  /** The reviewable media a run uploads to a milestone. */
  function Reviewable(ops: seq<Op>, milestone: string): nat {
    if ops == [] then 0
    else (match ops[0]
          case Upload(_, m, t, count) => if m == milestone && !t.ShippingLabel? then Uploads(count) else 0
          case Review(_, _) => 0)
         + Reviewable(ops[1..], milestone)
  }

  /** The sum of the counts that a milestone's confirmations (or its rejections)
      return over a run. */
  function Returned(items: seq<MediaEvidence>, ops: seq<Op>, milestone: string, confirmations: bool): nat
    decreases ops
  {
    if ops == [] then 0
    else (match ops[0]
          case Upload(_, _, _, _) => 0
          case Review(m, v) => if m == milestone && v.Confirm? == confirmations then Count(items, m, Pending) else 0)
         + Returned(Do(items, ops[0]), ops[1..], milestone, confirmations)
  }

  /** How one review moves the counts of every milestone. */
  lemma {:induction false} ReviewMovesCounts(items: seq<MediaEvidence>, m: string, v: Verdict, milestone: string)
    ensures var after := MarkAll(items, m, v);
            var moved := if m == milestone then Count(items, milestone, Pending) else 0;
            && Count(after, milestone, Pending) == Count(items, milestone, Pending) - moved
            && Count(after, milestone, Confirmed) == Count(items, milestone, Confirmed) + (if v.Confirm? then moved else 0)
            && Count(after, milestone, Rejected) == Count(items, milestone, Rejected) + (if v.Reject? then moved else 0)
            && Count(after, milestone, NotRequired) == Count(items, milestone, NotRequired)
  {
    if items != [] {
      ReviewMovesCounts(items[1..], m, v, milestone);
      assert MarkAll(items, m, v)[1..] == MarkAll(items[1..], m, v);
      assert MarkAll(items, m, v)[0] == Mark(items[0], m, v);
    }
  }

  lemma {:induction false} CountCopies(e: MediaEvidence, n: nat, milestone: string, status: ReviewStatus)
    ensures Count(Copies(e, n), milestone, status) == if e.milestoneId == milestone && e.reviewStatus == status then n else 0
  {
    if n > 0 {
      CountCopies(e, n - 1, milestone, status);
      assert Copies(e, n)[1..] == Copies(e, n - 1);
    }
  }

  lemma UploadAddsCounts(items: seq<MediaEvidence>, p: string, m: string, t: MediaType, count: int, milestone: string, status: ReviewStatus)
    ensures Count(Do(items, Upload(p, m, t, count)), milestone, status)
            == Count(items, milestone, status)
               + if m == milestone && status == NewEvidence(p, m, t).reviewStatus then Uploads(count) else 0
  {
    CountConcat(items, Copies(NewEvidence(p, m, t), Uploads(count)), milestone, status);
    CountCopies(NewEvidence(p, m, t), Uploads(count), milestone, status);
  }

  /** Over any run, the reviewable media uploaded to a milestone are those still
      pending plus all counts returned, and each returned count is there in the
      store as a status. */
  lemma {:induction false} MediaAreConserved(items: seq<MediaEvidence>, ops: seq<Op>, milestone: string)
    ensures var end := Run(items, ops);
            && Count(end, milestone, Confirmed) == Count(items, milestone, Confirmed) + Returned(items, ops, milestone, true)
            && Count(end, milestone, Rejected) == Count(items, milestone, Rejected) + Returned(items, ops, milestone, false)
            && Count(items, milestone, Pending) + Reviewable(ops, milestone)
               == Count(end, milestone, Pending) + Returned(items, ops, milestone, true) + Returned(items, ops, milestone, false)
    decreases ops
  {
    if ops != [] {
      MediaAreConserved(Do(items, ops[0]), ops[1..], milestone);
      match ops[0]
      case Upload(p, m, t, count) =>
        UploadAddsCounts(items, p, m, t, count, milestone, Pending);
        UploadAddsCounts(items, p, m, t, count, milestone, Confirmed);
        UploadAddsCounts(items, p, m, t, count, milestone, Rejected);
      case Review(m, v) =>
        ReviewMovesCounts(items, m, v, milestone);
    }
  }

  /** From the empty store. */
  lemma UploadsAreAccountedFor(ops: seq<Op>, milestone: string)
    ensures Reviewable(ops, milestone)
            == Count(Run([], ops), milestone, Pending) + Returned([], ops, milestone, true) + Returned([], ops, milestone, false)
    ensures Returned([], ops, milestone, true) == Count(Run([], ops), milestone, Confirmed)
    ensures Returned([], ops, milestone, false) == Count(Run([], ops), milestone, Rejected)
  {
    MediaAreConserved([], ops, milestone);
  }

  // ---------------------------------------------------------------------
  // The first review decides
  // ---------------------------------------------------------------------

  /** The first verdict a run passes on a milestone. */
  function FirstVerdict(ops: seq<Op>, milestone: string): Option<Verdict> {
    if ops == [] then None
    else if ops[0].Review? && ops[0].milestoneId == milestone then Some(ops[0].verdict)
    else FirstVerdict(ops[1..], milestone)
  }

  /** What becomes of a record over a run. */
  function Fate(e: MediaEvidence, ops: seq<Op>): MediaEvidence {
    var v := FirstVerdict(ops, e.milestoneId);
    if e.reviewStatus.Pending? && v.Some? then Judged(e, v.value) else e
  }

  /** Every record is still there after any run, and a pending one has the first
      verdict passed on its milestone since; nothing else about it changes. */
  lemma {:induction false} FirstReviewDecides(items: seq<MediaEvidence>, ops: seq<Op>, k: nat)
    requires k < |items|
    ensures k < |Run(items, ops)| && Run(items, ops)[k] == Fate(items[k], ops)
    decreases ops
  {
    if ops != [] {
      var next := Do(items, ops[0]);
      assert k < |next| && (ops[0].Upload? ==> next[k] == items[k]);
      FirstReviewDecides(next, ops[1..], k);
    }
  }

  /** No review status changes twice over a run, whatever happens in between: once
      it is not pending the whole record is final, and a label's never was. */
  lemma StatusChangesAtMostOnce(ops: seq<Op>, i: nat, j: nat, l: nat, k: nat)
    requires i <= j <= l <= |ops| && k < |Run([], ops[..i])|
    ensures k < |Run([], ops[..j])| && k < |Run([], ops[..l])|
    ensures var a, b, c := Run([], ops[..i])[k], Run([], ops[..j])[k], Run([], ops[..l])[k];
            && (a.reviewStatus != b.reviewStatus ==> a.reviewStatus.Pending? && !b.reviewStatus.Pending? && c == b)
            && (a.mediaType.ShippingLabel? ==> a == c && a.reviewStatus.NotRequired?)
  {
    PrefixRun(ops, i, j);
    PrefixRun(ops, j, l);
    FirstReviewDecides(Run([], ops[..i]), ops[i..j], k);
    FirstReviewDecides(Run([], ops[..j]), ops[j..l], k);
    LabelsNeedNoReview([], ops[..i]);
  }

  lemma PrefixRun(ops: seq<Op>, i: nat, j: nat)
    requires i <= j <= |ops|
    ensures Run([], ops[..j]) == Run(Run([], ops[..i]), ops[i..j])
  {
    assert ops[..j] == ops[..i] + ops[i..j];
    RunConcat([], ops[..i], ops[i..j]);
  }

  predicate LabelsExempt(items: seq<MediaEvidence>) {
    forall i :: 0 <= i < |items| ==> (items[i].mediaType.ShippingLabel? <==> items[i].reviewStatus.NotRequired?)
  }

  /** Exactly the shipping labels are exempt, after every run. */
  lemma {:induction false} LabelsNeedNoReview(items: seq<MediaEvidence>, ops: seq<Op>)
    requires LabelsExempt(items)
    ensures LabelsExempt(Run(items, ops))
    decreases ops
  {
    if ops != [] {
      var next := Do(items, ops[0]);
      forall i | 0 <= i < |next| ensures next[i].mediaType.ShippingLabel? <==> next[i].reviewStatus.NotRequired? {
        if i < |items| {
          assert next[i] == items[i] || (ops[0].Review? && next[i] == Mark(items[i], ops[0].milestoneId, ops[0].verdict));
        }
      }
      LabelsNeedNoReview(next, ops[1..]);
    }
  }

  /** Reviews of different milestones may come in either order; of one milestone,
      the first wins and the second finds nothing to count. */
  lemma ReviewOrder(items: seq<MediaEvidence>, m: string, v: Verdict, n: string, w: Verdict)
    ensures m != n ==> Run(items, [Review(m, v), Review(n, w)]) == Run(items, [Review(n, w), Review(m, v)])
    ensures m == n ==> Run(items, [Review(m, v), Review(n, w)]) == Run(items, [Review(m, v)])
    ensures m == n ==> Count(Run(items, [Review(m, v)]), n, Pending) == 0
  {
    var a, b := [Review(m, v), Review(n, w)], [Review(n, w), Review(m, v)];
    assert Run(items, a) == MarkAll(MarkAll(items, m, v), n, w) by {
      assert a[1..] == [Review(n, w)];
      SingleRun(MarkAll(items, m, v), Review(n, w));
    }
    assert Run(items, b) == MarkAll(MarkAll(items, n, w), m, v) by {
      assert b[1..] == [Review(m, v)];
      SingleRun(MarkAll(items, n, w), Review(m, v));
    }
    SingleRun(items, Review(m, v));
    ReviewMovesCounts(items, m, v, n);
  }

  lemma SingleRun(items: seq<MediaEvidence>, op: Op)
    ensures Run(items, [op]) == Do(items, op)
  {
  }
}
