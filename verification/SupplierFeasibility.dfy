/**
 Supplier responses of a buyer workspace and the feasibility report made from
 them. The lead-time service is a parameter; its day counts are not negative.
 */
module SupplierFeasibility {
  import opened Wrappers
  import opened PathScore
  import opened StableSort
  import opened PathRanker

  datatype Response = Response(
    responseId: string,
    supplierId: string,
    canMake: Option<bool>,
    fabricDays: Option<real>,
    materialDays: Option<real>,
    estimatedLeadTimeDays: Option<int>,
    redFlags: nat,
    confidence: real,
    unitPrice: Option<real>)

  /** What is sent to the lead-time service for one response. */
  datatype PathInput = PathInput(
    responseId: string,
    supplierId: string,
    fabricDays: Option<real>,
    statedDays: Option<int>,
    redFlags: nat,
    confidence: real,
    unitPrice: Option<real>)

  /** What comes back: an id for the path, its days, and how many new flags. */
  datatype Estimate = Estimate(pathId: string, totalDays: nat, newFlags: nat)

  datatype DeliveryPath = DeliveryPath(pathId: string, supplierId: string, leadTimeDays: int, rank: int, tag: Option<Label>)

  datatype FeasibilityReport = FeasibilityReport(paths: seq<DeliveryPath>, selectedPathId: Option<string>)

  /** `a or b` on optional numbers: zero counts as missing. */
  function OrDays(a: Option<real>, b: Option<real>): Option<real> {
    if a.Some? && a.value != 0.0 then a else b
  }

  /** What the service is sent: the fabric days, or the material days when the former
      are missing or zero, and one half for a missing or zero confidence. */
  function InputOf(r: Response): (input: PathInput)
    ensures input.responseId == r.responseId && input.supplierId == r.supplierId && input.redFlags == r.redFlags
    ensures input.statedDays == r.estimatedLeadTimeDays && input.unitPrice == r.unitPrice
    ensures input.fabricDays == if r.fabricDays.None? || r.fabricDays.value == 0.0 then r.materialDays else r.fabricDays
    ensures input.confidence != 0.0 && (r.confidence != 0.0 ==> input.confidence == r.confidence)
    ensures r.confidence == 0.0 ==> input.confidence == 0.5
  {
    PathInput(r.responseId, r.supplierId, OrDays(r.fabricDays, r.materialDays), r.estimatedLeadTimeDays, r.redFlags,
              if r.confidence != 0.0 then r.confidence else 0.5, r.unitPrice)
  }

  function PathOf(input: PathInput, e: Estimate, deadlineDays: Option<int>): (p: PathData)
    ensures WellFormed(p)
    ensures p.supplierId == input.supplierId && p.unitPrice == input.unitPrice && p.confidence == input.confidence
    ensures p.riskFlags - input.redFlags == e.newFlags && p.riskScore * 10.0 == p.riskFlags as real
    ensures !p.feasible <==> deadlineDays.Some? && deadlineDays.value < p.totalLeadTimeDays
  {
    var flags := input.redFlags + e.newFlags;
    PathRecord(e.pathId, input.supplierId, e.totalDays, flags as real * 0.1, input.unitPrice, input.confidence,
               deadlineDays.None? || e.totalDays <= deadlineDays.value, flags)
  }

  // ---------------------------------------------------------------------
  // Intake: the last response of each supplier
  // ---------------------------------------------------------------------

  function Without(responses: seq<Response>, supplierId: string): seq<Response> {
    if responses == [] then []
    else if responses[0].supplierId == supplierId then Without(responses[1..], supplierId)
    else [responses[0]] + Without(responses[1..], supplierId)
  }

  function Intake(responses: seq<Response>, r: Response): seq<Response> {
    Without(responses, r.supplierId) + [r]
  }

  function IntakeAll(submissions: seq<Response>): seq<Response> {
    if submissions == [] then [] else Intake(IntakeAll(submissions[..|submissions| - 1]), submissions[|submissions| - 1])
  }

  predicate RespondsIn(responses: seq<Response>, supplierId: string) {
    exists i :: 0 <= i < |responses| && responses[i].supplierId == supplierId
  }

  /** The submissions that no later submission of the same supplier replaces, in
      the order in which they were made. */
  function LastOfEach(submissions: seq<Response>): seq<Response> {
    if submissions == [] then []
    else if RespondsIn(submissions[1..], submissions[0].supplierId) then LastOfEach(submissions[1..])
    else [submissions[0]] + LastOfEach(submissions[1..])
  }

  lemma {:induction false} WithoutMembers(responses: seq<Response>, supplierId: string)
    ensures forall r :: r in Without(responses, supplierId) <==> r in responses && r.supplierId != supplierId
  {
    if responses != [] {
      WithoutMembers(responses[1..], supplierId);
      assert forall r :: r in responses <==> r == responses[0] || r in responses[1..];
    }
  }

  /** `at` gives, in increasing order, the position in the submissions of each record. */
  ghost predicate PositionsOf(at: seq<nat>, records: seq<Response>, submissions: seq<Response>) {
    && |at| == |records|
    && (forall i :: 0 <= i < |at| ==> at[i] < |submissions| && submissions[at[i]] == records[i])
    && (forall i, j :: 0 <= i < j < |at| ==> at[i] < at[j])
  }

  ghost predicate LastOfSupplier(k: nat, submissions: seq<Response>) {
    k < |submissions| && forall j :: k < j < |submissions| ==> submissions[j].supplierId != submissions[k].supplierId
  }

  lemma ShiftPositions(before: seq<nat>, records: seq<Response>, submissions: seq<Response>) returns (at: seq<nat>)
    requires submissions != [] && PositionsOf(before, records, submissions[1..])
    requires forall i :: 0 <= i < |before| ==> LastOfSupplier(before[i], submissions[1..])
    ensures PositionsOf(at, records, submissions) && forall i :: 0 <= i < |at| ==> at[i] > 0
    ensures forall i :: 0 <= i < |at| ==> LastOfSupplier(at[i], submissions)
  {
    at := seq(|before|, i requires 0 <= i < |before| => before[i] + 1);
    forall i | 0 <= i < |at|
      ensures LastOfSupplier(at[i], submissions) && submissions[at[i]] == records[i]
    {
      assert LastOfSupplier(before[i], submissions[1..]);
      forall j | at[i] < j < |submissions|
        ensures submissions[j].supplierId != submissions[at[i]].supplierId
      {
        assert submissions[j] == submissions[1..][j - 1];
      }
    }
  }

  lemma FirstIsLast(submissions: seq<Response>)
    requires submissions != [] && !RespondsIn(submissions[1..], submissions[0].supplierId)
    ensures LastOfSupplier(0, submissions)
  {
    forall j | 0 < j < |submissions|
      ensures submissions[j].supplierId != submissions[0].supplierId
    {
      assert submissions[1..][j - 1] == submissions[j];
    }
  }

  lemma PrependPosition(at: seq<nat>, records: seq<Response>, submissions: seq<Response>)
    requires submissions != [] && PositionsOf(at, records, submissions) && LastOfSupplier(0, submissions)
    requires forall i :: 0 <= i < |at| ==> at[i] > 0 && LastOfSupplier(at[i], submissions)
    ensures PositionsOf([0] + at, [submissions[0]] + records, submissions)
    ensures forall i :: 0 <= i < |[0] + at| ==> LastOfSupplier(([0] + at)[i], submissions)
  {
    forall i | 0 <= i < |[0] + at|
      ensures ([0] + at)[i] == if i == 0 then 0 else at[i - 1]
    {
    }
  }

  /** The records are submissions in their order, each the last of its supplier. */
  lemma {:induction false} RecordsAreLastSubmissions(submissions: seq<Response>) returns (at: seq<nat>)
    ensures PositionsOf(at, LastOfEach(submissions), submissions)
    ensures forall i :: 0 <= i < |at| ==> LastOfSupplier(at[i], submissions)
  {
    if submissions == [] {
      at := [];
    } else {
      var before := RecordsAreLastSubmissions(submissions[1..]);
      at := ShiftPositions(before, LastOfEach(submissions[1..]), submissions);
      if !RespondsIn(submissions[1..], submissions[0].supplierId) {
        FirstIsLast(submissions);
        PrependPosition(at, LastOfEach(submissions[1..]), submissions);
        at := [0] + at;
      }
    }
  }

  lemma {:induction false} WithoutConcat(a: seq<Response>, b: seq<Response>, supplierId: string)
    ensures Without(a + b, supplierId) == Without(a, supplierId) + Without(b, supplierId)
  {
    if a == [] {
      assert a + b == b;
    } else {
      assert (a + b)[1..] == a[1..] + b;
      WithoutConcat(a[1..], b, supplierId);
    }
  }

  lemma {:induction false} LastOfEachSnoc(submissions: seq<Response>, r: Response)
    ensures LastOfEach(submissions + [r]) == Without(LastOfEach(submissions), r.supplierId) + [r]
  {
    if submissions == [] {
      assert submissions + [r] == [r];
    } else {
      var x, rest := submissions[0], submissions[1..];
      assert (submissions + [r])[1..] == rest + [r];
      LastOfEachSnoc(rest, r);
      assert RespondsIn(rest + [r], x.supplierId) <==> RespondsIn(rest, x.supplierId) || r.supplierId == x.supplierId by {
        assert (rest + [r])[|rest|] == r;
        assert forall i :: 0 <= i < |rest| ==> (rest + [r])[i] == rest[i];
      }
      WithoutConcat([x], LastOfEach(rest), r.supplierId);
      assert Without([x], r.supplierId) == if x.supplierId == r.supplierId then [] else [x];
    }
  }

  /** After any submissions the list is exactly the last response of every supplier
      that ever responded, ordered by last submission. */
  lemma {:induction false} IntakeKeepsLastOfEach(submissions: seq<Response>)
    ensures IntakeAll(submissions) == LastOfEach(submissions)
  {
    if submissions != [] {
      var init := submissions[..|submissions| - 1];
      IntakeKeepsLastOfEach(init);
      LastOfEachSnoc(init, submissions[|submissions| - 1]);
      assert submissions == init + [submissions[|submissions| - 1]];
    }
  }

  lemma {:induction false} OneRecordPerSupplier(submissions: seq<Response>)
    ensures forall s :: RespondsIn(LastOfEach(submissions), s) <==> RespondsIn(submissions, s)
    ensures forall i, j :: 0 <= i < j < |LastOfEach(submissions)| ==>
              LastOfEach(submissions)[i].supplierId != LastOfEach(submissions)[j].supplierId
  {
    if submissions != [] {
      var x, rest := submissions[0], submissions[1..];
      OneRecordPerSupplier(rest);
      var last := LastOfEach(submissions);
      forall s
        ensures RespondsIn(last, s) <==> RespondsIn(submissions, s)
      {
        assert RespondsIn(submissions, s) <==> x.supplierId == s || RespondsIn(rest, s) by {
          assert forall i :: 1 <= i < |submissions| ==> submissions[i] == rest[i - 1];
          if RespondsIn(rest, s) {
            var i :| 0 <= i < |rest| && rest[i].supplierId == s;
            assert submissions[i + 1].supplierId == s;
          }
        }
        if !RespondsIn(rest, x.supplierId) {
          assert last[0] == x && last[1..] == LastOfEach(rest);
          if RespondsIn(LastOfEach(rest), s) {
            var i :| 0 <= i < |LastOfEach(rest)| && LastOfEach(rest)[i].supplierId == s;
            assert last[i + 1].supplierId == s;
          }
        }
      }
      if !RespondsIn(rest, x.supplierId) {
        assert forall j :: 1 <= j < |last| ==> last[j] == LastOfEach(rest)[j - 1];
        assert !RespondsIn(LastOfEach(rest), x.supplierId);
      }
    }
  }

  // ---------------------------------------------------------------------
  // The report
  // ---------------------------------------------------------------------

  function Eligible(responses: seq<Response>): seq<Response> {
    if responses == [] then []
    else Eligible(responses[..|responses| - 1])
         + if responses[|responses| - 1].canMake == Some(true) then [responses[|responses| - 1]] else []
  }

  /** One path per response, before ranking. */
  function PathsFor(eligible: seq<Response>, gltg: PathInput -> Estimate, deadlineDays: Option<int>): seq<PathData> {
    if eligible == [] then []
    else
      var input := InputOf(eligible[|eligible| - 1]);
      PathsFor(eligible[..|eligible| - 1], gltg, deadlineDays) + [PathOf(input, gltg(input), deadlineDays)]
  }

  function Delivery(ranked: seq<PathData>, i: nat): DeliveryPath
    requires i < |ranked|
  {
    DeliveryPath(ranked[i].pathId, ranked[i].supplierId, ranked[i].totalLeadTimeDays, i + 1, LabelOf(ranked, i))
  }

  function DeliveryPaths(ranked: seq<PathData>): (paths: seq<DeliveryPath>)
    ensures |paths| == |ranked| && forall i :: 0 <= i < |ranked| ==> paths[i] == Delivery(ranked, i)
  {
    seq(|ranked|, i requires 0 <= i < |ranked| => Delivery(ranked, i))
  }

  /** All delivery paths, best first. */
  function AllPaths(responses: seq<Response>, gltg: PathInput -> Estimate, deadlineDays: Option<int>): seq<DeliveryPath> {
    DeliveryPaths(Ranked(PathsFor(Eligible(responses), gltg, deadlineDays)))
  }

  function Capped<T>(xs: seq<T>, cap: int): seq<T> {
    if 0 < cap < |xs| then xs[..cap] else xs
  }

  class Workspace {
    var supplierResponses: seq<Response>
    var status: string
    var feasibilityReport: Option<FeasibilityReport>

    constructor ()
      ensures supplierResponses == [] && status == "created" && feasibilityReport == None
    {
      supplierResponses, status, feasibilityReport := [], "created", None;
    }

    method IntakeSupplierResponse(response: Response)
      modifies this
      ensures supplierResponses == Intake(old(supplierResponses), response)
      ensures supplierResponses != [] && supplierResponses[|supplierResponses| - 1] == response
      ensures forall r :: r in supplierResponses[..|supplierResponses| - 1] <==>
                r in old(supplierResponses) && r.supplierId != response.supplierId
      ensures status == if old(status) in ["created", "requirement_structured", "inquiry_drafted"]
                        then "collecting_responses" else old(status)
      ensures feasibilityReport == old(feasibilityReport)
    {
      WithoutMembers(supplierResponses, response.supplierId);
      supplierResponses := Without(supplierResponses, response.supplierId);
      supplierResponses := supplierResponses + [response];
      if status == "created" || status == "requirement_structured" || status == "inquiry_drafted" {
        status := "collecting_responses";
      }
    }

    /** The report holds the first `maxRecommended` of all ranked paths, or all of
        them when no positive cap is given, and selects its first path. */
    method RunFeasibilitySimulation(gltg: PathInput -> Estimate, deadlineDays: Option<int>, maxRecommended: int)
      returns (report: FeasibilityReport)
      modifies this
      ensures report.paths == Capped(AllPaths(old(supplierResponses), gltg, deadlineDays), maxRecommended)
      ensures report.selectedPathId == if report.paths == [] then None else Some(report.paths[0].pathId)
      ensures feasibilityReport == Some(report) && status == "feasibility_complete"
      ensures supplierResponses == old(supplierResponses)
    {
      var eligible := Eligible(supplierResponses);
      var ltPaths := BuildPaths(eligible, gltg, deadlineDays);
      var paths := RankAndCap(ltPaths, PathsFor(eligible, gltg, deadlineDays), maxRecommended);
      report := FeasibilityReport(paths, if paths == [] then None else Some(paths[0].pathId));
      feasibilityReport := Some(report);
      status := "feasibility_complete";
    }
  }

  method RankAndCap(ltPaths: seq<LeadTimePath>, ghost data: seq<PathData>, maxRecommended: int)
    returns (paths: seq<DeliveryPath>)
    requires AllDifferent(ltPaths) && DataOf(ltPaths) == data
    requires forall i :: 0 <= i < |ltPaths| ==> ltPaths[i].tag == None
    modifies ltPaths
    ensures paths == Capped(DeliveryPaths(Ranked(data)), maxRecommended)
  {
    var labeled := [];
    if ltPaths != [] {
      labeled := AssignLabels(ltPaths);
    }
    ghost var ranked := Ranked(data);
    assert DataOf(labeled) == ranked;
    if maxRecommended > 0 && maxRecommended < |labeled| {
      labeled := labeled[..maxRecommended];
    }
    paths := ToDelivery(labeled, ranked);
  }

  /** Converts the first paths of a ranked and labelled list. */
  method ToDelivery(shown: seq<LeadTimePath>, ghost ranked: seq<PathData>) returns (paths: seq<DeliveryPath>)
    requires |shown| <= |ranked|
    requires forall i :: 0 <= i < |shown| ==>
               shown[i].data == ranked[i] && shown[i].rank == i + 1 && shown[i].tag == LabelOf(ranked, i)
    ensures |paths| == |shown| && forall k :: 0 <= k < |paths| ==> paths[k] == Delivery(ranked, k)
  {
    paths := [];
    for i := 0 to |shown|
      invariant |paths| == i
      invariant forall k :: 0 <= k < i ==> paths[k] == Delivery(ranked, k)
    {
      var lp := shown[i];
      paths := paths + [DeliveryPath(lp.data.pathId, lp.data.supplierId, lp.data.totalLeadTimeDays, lp.rank, lp.tag)];
    }
  }

  method BuildPaths(eligible: seq<Response>, gltg: PathInput -> Estimate, deadlineDays: Option<int>)
    returns (ltPaths: seq<LeadTimePath>)
    ensures DataOf(ltPaths) == PathsFor(eligible, gltg, deadlineDays)
    ensures AllDifferent(ltPaths)
    ensures forall i :: 0 <= i < |ltPaths| ==> fresh(ltPaths[i]) && ltPaths[i].tag == None
  {
    ltPaths := [];
    for i := 0 to |eligible|
      invariant DataOf(ltPaths) == PathsFor(eligible[..i], gltg, deadlineDays)
      invariant AllDifferent(ltPaths)
      invariant forall k :: 0 <= k < |ltPaths| ==> fresh(ltPaths[k]) && ltPaths[k].tag == None
    {
      var input := InputOf(eligible[i]);
      var path := new LeadTimePath(PathOf(input, gltg(input), deadlineDays));
      assert eligible[..i + 1][..i] == eligible[..i];
      ltPaths := ltPaths + [path];
    }
    assert eligible[..|eligible|] == eligible;
  }

  lemma {:induction false} PathsForAt(eligible: seq<Response>, gltg: PathInput -> Estimate, deadlineDays: Option<int>)
    ensures |PathsFor(eligible, gltg, deadlineDays)| == |eligible|
    ensures forall i :: 0 <= i < |eligible| ==>
              PathsFor(eligible, gltg, deadlineDays)[i] == PathOf(InputOf(eligible[i]), gltg(InputOf(eligible[i])), deadlineDays)
  {
    if eligible != [] {
      PathsForAt(eligible[..|eligible| - 1], gltg, deadlineDays);
    }
  }

  lemma {:induction false} EligibleMembers(responses: seq<Response>)
    ensures forall r :: r in Eligible(responses) <==> r in responses && r.canMake == Some(true)
  {
    if responses != [] {
      EligibleMembers(responses[..|responses| - 1]);
      assert forall r :: r in responses <==> r in responses[..|responses| - 1] || r == responses[|responses| - 1];
    }
  }

  /** The delivery path made from a response. */
  predicate MadeFrom(p: DeliveryPath, r: Response, gltg: PathInput -> Estimate) {
    var e := gltg(InputOf(r));
    p.supplierId == r.supplierId && p.pathId == e.pathId && p.leadTimeDays == e.totalDays
  }

  /** The ranked list is the unranked one in another order. */
  lemma RankedMembers(data: seq<PathData>)
    ensures |Ranked(data)| == |data| && forall p :: p in Ranked(data) <==> p in data
  {
    StableDescIsStable(data, Score);
    forall p
      ensures p in Ranked(data) <==> p in data
    {
      assert p in Ranked(data) <==> p in multiset(Ranked(data));
      assert p in data <==> p in multiset(data);
    }
  }

  lemma PathsMembers(eligible: seq<Response>, gltg: PathInput -> Estimate, deadlineDays: Option<int>, p: PathData)
    ensures p in PathsFor(eligible, gltg, deadlineDays) <==>
              exists r :: r in eligible && p == PathOf(InputOf(r), gltg(InputOf(r)), deadlineDays)
  {
    PathsForAt(eligible, gltg, deadlineDays);
    var data := PathsFor(eligible, gltg, deadlineDays);
    if p in data {
      var j :| 0 <= j < |data| && data[j] == p;
      assert eligible[j] in eligible;
    }
    if r :| r in eligible && p == PathOf(InputOf(r), gltg(InputOf(r)), deadlineDays) {
      var j :| 0 <= j < |eligible| && eligible[j] == r;
      assert data[j] == p;
    }
  }

  lemma DeliveryMembers(data: seq<PathData>, p: DeliveryPath) returns (d: PathData)
    requires p in DeliveryPaths(Ranked(data))
    ensures d in data && p.pathId == d.pathId && p.supplierId == d.supplierId && p.leadTimeDays == d.totalLeadTimeDays
  {
    RankedMembers(data);
    var ranked := Ranked(data);
    var i :| 0 <= i < |ranked| && DeliveryPaths(ranked)[i] == p;
    d := ranked[i];
  }

  lemma DeliveryOf(data: seq<PathData>, d: PathData) returns (p: DeliveryPath)
    requires d in data
    ensures p in DeliveryPaths(Ranked(data))
    ensures p.pathId == d.pathId && p.supplierId == d.supplierId && p.leadTimeDays == d.totalLeadTimeDays
  {
    RankedMembers(data);
    var ranked := Ranked(data);
    var i :| 0 <= i < |ranked| && ranked[i] == d;
    p := DeliveryPaths(ranked)[i];
  }

  /** Without a cap the report covers exactly the suppliers that can make the
      order: it has as many paths as there are such responses... */
  lemma OnePathPerEligibleResponse(responses: seq<Response>, gltg: PathInput -> Estimate, deadlineDays: Option<int>)
    ensures |AllPaths(responses, gltg, deadlineDays)| == |Eligible(responses)|
    ensures forall r :: r in Eligible(responses) <==> r in responses && r.canMake == Some(true)
  {
    EligibleMembers(responses);
    PathsForAt(Eligible(responses), gltg, deadlineDays);
    RankedMembers(PathsFor(Eligible(responses), gltg, deadlineDays));
  }

  /** ...each made from one of them... */
  lemma PathHasResponse(responses: seq<Response>, gltg: PathInput -> Estimate, deadlineDays: Option<int>, p: DeliveryPath)
    returns (r: Response)
    requires p in AllPaths(responses, gltg, deadlineDays)
    ensures r in responses && r.canMake == Some(true) && MadeFrom(p, r, gltg)
  {
    var eligible := Eligible(responses);
    var d := DeliveryMembers(PathsFor(eligible, gltg, deadlineDays), p);
    PathsMembers(eligible, gltg, deadlineDays, d);
    r :| r in eligible && d == PathOf(InputOf(r), gltg(InputOf(r)), deadlineDays);
    EligibleMembers(responses);
  }

  /** ...and each of them with a path. */
  lemma ResponseHasPath(responses: seq<Response>, gltg: PathInput -> Estimate, deadlineDays: Option<int>, r: Response)
    returns (p: DeliveryPath)
    requires r in responses && r.canMake == Some(true)
    ensures p in AllPaths(responses, gltg, deadlineDays) && MadeFrom(p, r, gltg)
  {
    EligibleMembers(responses);
    var eligible := Eligible(responses);
    var d := PathOf(InputOf(r), gltg(InputOf(r)), deadlineDays);
    PathsMembers(eligible, gltg, deadlineDays, d);
    p := DeliveryOf(PathsFor(eligible, gltg, deadlineDays), d);
  }

  /** The response that the path at a position of the report was made from. */
  lemma PathAtPosition(responses: seq<Response>, gltg: PathInput -> Estimate, deadlineDays: Option<int>, i: nat) returns (r: Response)
    requires i < |AllPaths(responses, gltg, deadlineDays)|
    ensures r in responses && r.canMake == Some(true) && MadeFrom(AllPaths(responses, gltg, deadlineDays)[i], r, gltg)
    ensures var ranked := Ranked(PathsFor(Eligible(responses), gltg, deadlineDays));
            i < |ranked| && ranked[i] == PathOf(InputOf(r), gltg(InputOf(r)), deadlineDays)
  {
    var eligible := Eligible(responses);
    var data := PathsFor(eligible, gltg, deadlineDays);
    RankedMembers(data);
    var d := Ranked(data)[i];
    assert d in data;
    PathsMembers(eligible, gltg, deadlineDays, d);
    r :| r in eligible && d == PathOf(InputOf(r), gltg(InputOf(r)), deadlineDays);
    EligibleMembers(responses);
  }

  /** The report is numbered from one, best score first, with the labels that the
      ranking gives these positions. */
  lemma ReportIsRanked(responses: seq<Response>, gltg: PathInput -> Estimate, deadlineDays: Option<int>, i: nat, j: nat)
    returns (r: Response, q: Response)
    requires i < j < |AllPaths(responses, gltg, deadlineDays)|
    ensures var all := AllPaths(responses, gltg, deadlineDays);
            && r in responses && r.canMake == Some(true) && MadeFrom(all[i], r, gltg) && all[i].rank == i + 1
            && q in responses && q.canMake == Some(true) && MadeFrom(all[j], q, gltg) && all[j].rank == j + 1
            && CompositeScore(PathOf(InputOf(r), gltg(InputOf(r)), deadlineDays))
               >= CompositeScore(PathOf(InputOf(q), gltg(InputOf(q)), deadlineDays))
            && all[i].tag == LabelOf(Ranked(PathsFor(Eligible(responses), gltg, deadlineDays)), i)
  {
    var ranked := Ranked(PathsFor(Eligible(responses), gltg, deadlineDays));
    r := PathAtPosition(responses, gltg, deadlineDays, i);
    q := PathAtPosition(responses, gltg, deadlineDays, j);
    StableDescIsStable(PathsFor(Eligible(responses), gltg, deadlineDays), Score);
    assert Score(ranked[i]) >= Score(ranked[j]);
  }

  /** A smaller cap shows a prefix of what a larger one, or none, shows; so the
      selected path is always the one of rank one. */
  lemma CapShowsPrefix(responses: seq<Response>, gltg: PathInput -> Estimate, deadlineDays: Option<int>, k: int, l: int)
    requires 0 < k && (k <= l || l <= 0)
    ensures var all := AllPaths(responses, gltg, deadlineDays);
            && Capped(all, k) <= Capped(all, l)
            && |Capped(all, k)| == (if k < |all| then k else |all|)
            && (all != [] ==> Capped(all, k) != [] && Capped(all, k)[0] == all[0] && all[0].rank == 1
                              && all[0].tag == Some(BestOverall))
  {
    var all := AllPaths(responses, gltg, deadlineDays);
    if all != [] {
      assert all[0] == Delivery(Ranked(PathsFor(Eligible(responses), gltg, deadlineDays)), 0);
    }
  }
}
