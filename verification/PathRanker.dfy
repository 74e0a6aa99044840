/**
 Ranking of lead-time paths and the staged labelling of the ranked list.
 */
module PathRanker {
  import opened Wrappers
  import opened PathScore
  import opened StableSort

  datatype Label = BestOverall | Fastest | LowestCost | Safest | Backup

  // ---------------------------------------------------------------------
  // The staged labels, on data
  // ---------------------------------------------------------------------

  /** The key of a minimum; a falsy price counts as infinite. */
  datatype Cost = Finite(amount: real) | Infinite

  predicate NoDearer(a: Cost, b: Cost) {
    b.Infinite? || (a.Finite? && a.amount <= b.amount)
  }

  function StageCost(stage: Label, p: PathData): Cost {
    match stage
    case Fastest => Finite(p.totalLeadTimeDays as real)
    case LowestCost => if p.unitPrice.Some? && p.unitPrice.value != 0.0 then Finite(p.unitPrice.value) else Infinite
    case _ => Finite(p.riskFlags as real)
  }

  predicate Candidate(stage: Label, used: set<string>, p: PathData) {
    p.pathId !in used && (stage.LowestCost? ==> p.unitPrice.Some?)
  }

  /** Index of the first candidate of least cost: the minimum over the remaining paths. */
  function FirstLeast(ranked: seq<PathData>, stage: Label, used: set<string>): (r: Option<nat>)
    ensures r.None? <==> forall i :: 0 <= i < |ranked| ==> !Candidate(stage, used, ranked[i])
    ensures r.Some? ==>
              && r.value < |ranked| && Candidate(stage, used, ranked[r.value])
              && (forall i :: 0 <= i < |ranked| && Candidate(stage, used, ranked[i]) ==>
                    NoDearer(StageCost(stage, ranked[r.value]), StageCost(stage, ranked[i])))
              && (forall i :: 0 <= i < r.value && Candidate(stage, used, ranked[i]) ==>
                    !NoDearer(StageCost(stage, ranked[i]), StageCost(stage, ranked[r.value])))
  {
    if ranked == [] then None
    else
      var n := |ranked| - 1;
      var before := FirstLeast(ranked[..n], stage, used);
      assert forall i :: 0 <= i < n ==> ranked[..n][i] == ranked[i];
      if !Candidate(stage, used, ranked[n]) then before
      else if before.Some? && NoDearer(StageCost(stage, ranked[before.value]), StageCost(stage, ranked[n])) then before
      else Some(n)
  }

  function Use(ranked: seq<PathData>, used: set<string>, choice: Option<nat>): set<string>
    requires choice.Some? ==> choice.value < |ranked|
  {
    if choice.Some? then used + {ranked[choice.value].pathId} else used
  }

  /** The positions the stages choose, and the ids used up before and after them. */
  datatype Stages = Stages(
    fastest: Option<nat>, cheapest: Option<nat>, safest: Option<nat>,
    used0: set<string>, used1: set<string>, used2: set<string>, used3: set<string>)

  function StagesOf(ranked: seq<PathData>): Stages
    requires ranked != []
  {
    var used0 := {ranked[0].pathId};
    var fastest := FirstLeast(ranked, Fastest, used0);
    var used1 := Use(ranked, used0, fastest);
    var cheapest := FirstLeast(ranked, LowestCost, used1);
    var used2 := Use(ranked, used1, cheapest);
    var safest := FirstLeast(ranked, Safest, used2);
    Stages(fastest, cheapest, safest, used0, used1, used2, Use(ranked, used2, safest))
  }

  /** The label given to position `i`; None when the position gets none. */
  function LabelOf(ranked: seq<PathData>, i: nat): Option<Label>
    requires i < |ranked|
  {
    var st := StagesOf(ranked);
    if i == 0 then Some(BestOverall)
    else if st.fastest == Some(i) then Some(Fastest)
    else if st.cheapest == Some(i) then Some(LowestCost)
    else if st.safest == Some(i) then Some(Safest)
    else if ranked[i].pathId !in st.used3 then Some(Backup)
    else None
  }

  ghost predicate DistinctIds(ranked: seq<PathData>) {
    forall i, j :: 0 <= i < j < |ranked| ==> ranked[i].pathId != ranked[j].pathId
  }

  predicate Has(ranked: seq<PathData>, i: nat, tag: Label)
    requires i < |ranked|
  {
    LabelOf(ranked, i) == Some(tag)
  }

  /** Position `i` has none of the labels handed out before `tag`. */
  predicate UnlabelledAt(ranked: seq<PathData>, i: nat, tag: Label)
    requires i < |ranked|
  {
    && !Has(ranked, i, BestOverall)
    && (tag != Fastest ==> !Has(ranked, i, Fastest))
    && (tag == Safest ==> !Has(ranked, i, LowestCost))
  }

  /** An id is used up by a stage exactly when a position with that id was chosen. */
  lemma UsedIds(ranked: seq<PathData>, id: string)
    requires ranked != []
    ensures var st := StagesOf(ranked);
            && (id in st.used0 <==> id == ranked[0].pathId)
            && (id in st.used1 <==> id in st.used0 || (st.fastest.Some? && ranked[st.fastest.value].pathId == id))
            && (id in st.used2 <==> id in st.used1 || (st.cheapest.Some? && ranked[st.cheapest.value].pathId == id))
            && (id in st.used3 <==> id in st.used2 || (st.safest.Some? && ranked[st.safest.value].pathId == id))
  {
  }

  /** Choices have ids that no earlier choice used. */
  lemma ChoicesAreFresh(ranked: seq<PathData>)
    requires ranked != []
    ensures var st := StagesOf(ranked);
            && (st.fastest.Some? ==> st.fastest.value < |ranked| && ranked[st.fastest.value].pathId !in st.used0)
            && (st.cheapest.Some? ==> st.cheapest.value < |ranked| && ranked[st.cheapest.value].pathId !in st.used1)
            && (st.safest.Some? ==> st.safest.value < |ranked| && ranked[st.safest.value].pathId !in st.used2)
  {
  }

  /** With distinct ids the used ids say which labels have been handed out. */
  lemma UsedMeansLabelled(ranked: seq<PathData>, i: nat)
    requires DistinctIds(ranked) && i < |ranked|
    ensures var st := StagesOf(ranked); var id := ranked[i].pathId;
            && (id !in st.used0 <==> UnlabelledAt(ranked, i, Fastest))
            && (id !in st.used1 <==> UnlabelledAt(ranked, i, LowestCost))
            && (id !in st.used2 <==> UnlabelledAt(ranked, i, Safest))
            && (Has(ranked, i, Fastest) <==> st.fastest == Some(i))
            && (Has(ranked, i, LowestCost) <==> st.cheapest == Some(i))
            && (Has(ranked, i, Safest) <==> st.safest == Some(i))
            && LabelOf(ranked, i).Some?
  {
    UsedIds(ranked, ranked[i].pathId);
    ChoicesAreFresh(ranked);
    var st := StagesOf(ranked);
    SameIdSamePosition(ranked, i, 0);
    if st.fastest.Some? {
      UsedIds(ranked, ranked[st.fastest.value].pathId);
      SameIdSamePosition(ranked, i, st.fastest.value);
    }
    if st.cheapest.Some? {
      UsedIds(ranked, ranked[st.cheapest.value].pathId);
      SameIdSamePosition(ranked, i, st.cheapest.value);
    }
    if st.safest.Some? {
      UsedIds(ranked, ranked[st.safest.value].pathId);
      SameIdSamePosition(ranked, i, st.safest.value);
    }
  }

  lemma SameIdSamePosition(ranked: seq<PathData>, i: nat, j: nat)
    requires DistinctIds(ranked) && i < |ranked| && j < |ranked|
    ensures ranked[i].pathId == ranked[j].pathId <==> i == j
  {
  }

  /** Every position of a list with distinct ids gets exactly one label:
      BEST_OVERALL at rank one only, and no two positions share a label other
      than BACKUP. */
  lemma LabelsPartition(ranked: seq<PathData>, i: nat, j: nat)
    requires DistinctIds(ranked) && i < |ranked| && j < |ranked|
    ensures LabelOf(ranked, i).Some?
    ensures Has(ranked, i, BestOverall) <==> i == 0
    ensures i != j && LabelOf(ranked, i) == LabelOf(ranked, j) ==> Has(ranked, i, Backup)
  {
    UsedMeansLabelled(ranked, i);
    UsedMeansLabelled(ranked, j);
  }

  /** The ids that are used up when a stage begins. */
  function UsedFor(ranked: seq<PathData>, stage: Label): set<string>
    requires ranked != []
  {
    var st := StagesOf(ranked);
    match stage
    case Fastest => st.used0
    case LowestCost => st.used1
    case _ => st.used2
  }

  /** A labelled position is the choice of its stage, and the unlabelled positions
      are its candidates. */
  lemma LabelIsChoice(ranked: seq<PathData>, stage: Label, i: nat)
    requires stage in {Fastest, LowestCost, Safest} && DistinctIds(ranked) && i < |ranked|
    ensures Has(ranked, i, stage) <==> FirstLeast(ranked, stage, UsedFor(ranked, stage)) == Some(i)
    ensures Candidate(stage, UsedFor(ranked, stage), ranked[i]) <==>
              UnlabelledAt(ranked, i, stage) && (stage.LowestCost? ==> ranked[i].unitPrice.Some?)
  {
    UsedMeansLabelled(ranked, i);
  }

  /** The path labelled for a stage is a candidate of that stage, no other
      candidate costs less, and no earlier one costs as little. */
  lemma StageLabelIsLeast(ranked: seq<PathData>, stage: Label, i: nat, j: nat)
    requires stage in {Fastest, LowestCost, Safest}
    requires DistinctIds(ranked) && i < |ranked| && j < |ranked| && Has(ranked, i, stage)
    requires UnlabelledAt(ranked, j, stage) && (stage.LowestCost? ==> ranked[j].unitPrice.Some?)
    ensures UnlabelledAt(ranked, i, stage) && (stage.LowestCost? ==> ranked[i].unitPrice.Some?)
    ensures NoDearer(StageCost(stage, ranked[i]), StageCost(stage, ranked[j]))
    ensures j < i ==> !NoDearer(StageCost(stage, ranked[j]), StageCost(stage, ranked[i]))
    ensures stage.Fastest? ==> ranked[i].totalLeadTimeDays <= ranked[j].totalLeadTimeDays
    ensures stage.Safest? ==> ranked[i].riskFlags <= ranked[j].riskFlags
    ensures stage.LowestCost? && ranked[i].unitPrice.value > 0.0 && ranked[j].unitPrice.value > 0.0 ==>
              ranked[i].unitPrice.value <= ranked[j].unitPrice.value
  {
    LabelIsChoice(ranked, stage, i);
    LabelIsChoice(ranked, stage, j);
  }

  /** A stage is skipped only when it has no candidate. */
  lemma StagesAreFilled(ranked: seq<PathData>, stage: Label, j: nat) returns (i: nat)
    requires stage in {Fastest, LowestCost, Safest} && DistinctIds(ranked) && j < |ranked|
    requires UnlabelledAt(ranked, j, stage) && (stage.LowestCost? ==> ranked[j].unitPrice.Some?)
    ensures i < |ranked| && Has(ranked, i, stage)
  {
    LabelIsChoice(ranked, stage, j);
    i := FirstLeast(ranked, stage, UsedFor(ranked, stage)).value;
    LabelIsChoice(ranked, stage, i);
  }

  /** Some candidate of the LOWEST_COST stage has a price of this sign. */
  ghost predicate SomePrice(ranked: seq<PathData>, sign: int) {
    exists j :: 0 <= j < |ranked| && PricedCandidate(ranked, j) && Sign(ranked[j].unitPrice.value) == sign
  }

  predicate PricedCandidate(ranked: seq<PathData>, j: nat)
    requires j < |ranked|
  {
    ranked[j].unitPrice.Some? && UnlabelledAt(ranked, j, LowestCost)
  }

  function Sign(x: real): int {
    if x < 0.0 then -1 else if x == 0.0 then 0 else 1
  }

  /** LOWEST_COST really has the least price of its stage unless a free path
      competes with positive prices only: then the free path is passed over. */
  lemma LowestCostIsCheapestExactly(ranked: seq<PathData>, i: nat)
    requires DistinctIds(ranked) && i < |ranked| && Has(ranked, i, LowestCost)
    ensures ranked[i].unitPrice.Some?
    ensures (forall j :: 0 <= j < |ranked| && PricedCandidate(ranked, j) ==>
               ranked[i].unitPrice.value <= ranked[j].unitPrice.value)
            <==> SomePrice(ranked, -1) || !SomePrice(ranked, 0) || !SomePrice(ranked, 1)
  {
    UsedMeansLabelled(ranked, i);
    ChoicesAreFresh(ranked);
    forall j | 0 <= j < |ranked| && PricedCandidate(ranked, j)
      ensures NoDearer(StageCost(LowestCost, ranked[i]), StageCost(LowestCost, ranked[j]))
    {
      StageLabelIsLeast(ranked, LowestCost, i, j);
    }
    assert PricedCandidate(ranked, i);
  }

  /** Position `i` was chosen for one of the single labels. */
  predicate Chosen(ranked: seq<PathData>, i: nat)
    requires i < |ranked|
  {
    LabelOf(ranked, i).Some? && LabelOf(ranked, i) != Some(Backup)
  }

  /** `k` is the first of the least candidates of a stage. */
  ghost predicate IsFirstLeast(ranked: seq<PathData>, stage: Label, used: set<string>, k: nat) {
    && k < |ranked| && Candidate(stage, used, ranked[k])
    && (forall i :: 0 <= i < |ranked| && Candidate(stage, used, ranked[i]) ==>
          NoDearer(StageCost(stage, ranked[k]), StageCost(stage, ranked[i])))
    && (forall i :: 0 <= i < k && Candidate(stage, used, ranked[i]) ==>
          !NoDearer(StageCost(stage, ranked[i]), StageCost(stage, ranked[k])))
  }

  ghost function LeastIds(ranked: seq<PathData>, stage: Label, used: set<string>): set<string> {
    set k | 0 <= k < |ranked| && IsFirstLeast(ranked, stage, used, k) :: ranked[k].pathId
  }

  /** The ids of rank one and of the first least candidates of the earlier stages. */
  ghost function IdsBefore(ranked: seq<PathData>, stage: Label): set<string>
    requires ranked != []
  {
    var first := {ranked[0].pathId};
    var second := first + LeastIds(ranked, Fastest, first);
    match stage
    case Fastest => first
    case LowestCost => second
    case _ => second + LeastIds(ranked, LowestCost, second)
  }

  /** `k` is rank one, or the first least candidate of a stage. */
  ghost predicate Picked(ranked: seq<PathData>, k: nat) {
    k < |ranked| &&
    (|| k == 0
     || IsFirstLeast(ranked, Fastest, IdsBefore(ranked, Fastest), k)
     || IsFirstLeast(ranked, LowestCost, IdsBefore(ranked, LowestCost), k)
     || IsFirstLeast(ranked, Safest, IdsBefore(ranked, Safest), k))
  }

  lemma FirstLeastExactly(ranked: seq<PathData>, stage: Label, used: set<string>, k: nat)
    requires k < |ranked|
    ensures FirstLeast(ranked, stage, used) == Some(k) <==> IsFirstLeast(ranked, stage, used, k)
  {
  }

  lemma LeastIdsUsed(ranked: seq<PathData>, stage: Label, used: set<string>)
    ensures used + LeastIds(ranked, stage, used) == Use(ranked, used, FirstLeast(ranked, stage, used))
  {
    var choice := FirstLeast(ranked, stage, used);
    forall k | 0 <= k < |ranked|
      ensures choice == Some(k) <==> IsFirstLeast(ranked, stage, used, k)
    {
      FirstLeastExactly(ranked, stage, used, k);
    }
    if choice.Some? {
      assert ranked[choice.value].pathId in LeastIds(ranked, stage, used);
    }
  }

  lemma IdsBeforeStages(ranked: seq<PathData>)
    requires ranked != []
    ensures var st := StagesOf(ranked);
            && IdsBefore(ranked, Fastest) == st.used0
            && IdsBefore(ranked, LowestCost) == st.used1
            && IdsBefore(ranked, Safest) == st.used2
  {
    var st := StagesOf(ranked);
    LeastIdsUsed(ranked, Fastest, st.used0);
    LeastIdsUsed(ranked, LowestCost, st.used1);
  }

  lemma StageChoices(ranked: seq<PathData>, k: nat)
    requires k < |ranked|
    ensures var st := StagesOf(ranked);
            && (st.fastest == Some(k) <==> IsFirstLeast(ranked, Fastest, st.used0, k))
            && (st.cheapest == Some(k) <==> IsFirstLeast(ranked, LowestCost, st.used1, k))
            && (st.safest == Some(k) <==> IsFirstLeast(ranked, Safest, st.used2, k))
  {
    var st := StagesOf(ranked);
    FirstLeastExactly(ranked, Fastest, st.used0, k);
    FirstLeastExactly(ranked, LowestCost, st.used1, k);
    FirstLeastExactly(ranked, Safest, st.used2, k);
  }

  lemma PickedIsChosen(ranked: seq<PathData>, k: nat)
    requires k < |ranked|
    ensures Picked(ranked, k) <==> Chosen(ranked, k)
  {
    IdsBeforeStages(ranked);
    StageChoices(ranked, k);
  }

  /** Whatever the ids, a position is left without a label exactly when another
      position with the same id is rank one or the first least of a stage. */
  lemma UnlabelledExactly(ranked: seq<PathData>, j: nat)
    requires j < |ranked|
    ensures LabelOf(ranked, j).None? <==>
              exists k :: 0 <= k < |ranked| && k != j && ranked[k].pathId == ranked[j].pathId && Picked(ranked, k)
  {
    if LabelOf(ranked, j).None? {
      var k := ChosenForId(ranked, j);
      PickedIsChosen(ranked, k);
    }
    if k :| 0 <= k < |ranked| && k != j && ranked[k].pathId == ranked[j].pathId && Picked(ranked, k) {
      PickedIsChosen(ranked, k);
      OneChoicePerId(ranked, k, j);
    }
  }

  lemma ChosenForId(ranked: seq<PathData>, j: nat) returns (k: nat)
    requires j < |ranked| && LabelOf(ranked, j).None?
    ensures k < |ranked| && k != j && ranked[k].pathId == ranked[j].pathId && Chosen(ranked, k)
  {
    k := ChoiceWithId(ranked, ranked[j].pathId);
  }

  lemma ChoiceWithId(ranked: seq<PathData>, id: string) returns (k: nat)
    requires ranked != [] && id in StagesOf(ranked).used3
    ensures k < |ranked| && ranked[k].pathId == id && Chosen(ranked, k)
  {
    var st := StagesOf(ranked);
    UsedIds(ranked, id);
    ChoicesAreChosen(ranked);
    if id in st.used0 {
      k := 0;
    } else if id in st.used1 {
      k := st.fastest.value;
    } else if id in st.used2 {
      k := st.cheapest.value;
    } else {
      k := st.safest.value;
    }
  }

  lemma ChoicesAreChosen(ranked: seq<PathData>)
    requires ranked != []
    ensures var st := StagesOf(ranked);
            && Chosen(ranked, 0)
            && (st.fastest.Some? ==> st.fastest.value < |ranked| && Chosen(ranked, st.fastest.value))
            && (st.cheapest.Some? ==> st.cheapest.value < |ranked| && Chosen(ranked, st.cheapest.value))
            && (st.safest.Some? ==> st.safest.value < |ranked| && Chosen(ranked, st.safest.value))
  {
    ChoicesAreFresh(ranked);
  }

  lemma OneChoicePerId(ranked: seq<PathData>, k: nat, j: nat)
    requires k < |ranked| && j < |ranked| && k != j && ranked[k].pathId == ranked[j].pathId && Chosen(ranked, k)
    ensures LabelOf(ranked, j).None?
  {
    var st := StagesOf(ranked);
    ChoicesAreFresh(ranked);
    UsedIds(ranked, ranked[j].pathId);
    assert ranked[j].pathId in st.used3;
    assert j != 0 && st.fastest != Some(j) && st.cheapest != Some(j) && st.safest != Some(j);
  }

  // ---------------------------------------------------------------------
  // Ranking in place
  // ---------------------------------------------------------------------

  function Score(p: PathData): real {
    CompositeScore(p)
  }

  function Ranked(paths: seq<PathData>): seq<PathData> {
    StableDesc(paths, Score)
  }

  /** In the ranked list a path that is nowhere worse, strictly faster and trusted
      at all comes strictly before the other. */
  lemma FasterRanksBetter(paths: seq<PathData>, i: nat, j: nat)
    requires i < |Ranked(paths)| && j < |Ranked(paths)|
    requires WellFormed(Ranked(paths)[i]) && WellFormed(Ranked(paths)[j]) && NoWorse(Ranked(paths)[i], Ranked(paths)[j])
    requires Ranked(paths)[i].confidence > 0.0
    requires Ranked(paths)[i].totalLeadTimeDays < Ranked(paths)[j].totalLeadTimeDays
    ensures i < j
  {
    StableDescIsStable(paths, Score);
    ScoreIsMonotone(Ranked(paths)[i], Ranked(paths)[j]);
    assert Score(Ranked(paths)[i]) > Score(Ranked(paths)[j]);
  }

  // ---------------------------------------------------------------------
  // Two lists on which the labels surprise
  // ---------------------------------------------------------------------

  /** A path without confidence scores nothing, so such paths keep their order. */
  function Sample(id: string, days: nat, price: Option<real>): PathData {
    PathRecord(id, id, days, 0.0, price, 0.0, true, 0)
  }

  lemma SamplesKeepOrder(paths: seq<PathData>)
    requires forall p :: p in paths ==> p.confidence == 0.0
    ensures Ranked(paths) == paths
  {
    StableDescIsStable(paths, Score);
    forall p | p in paths ensures Score(p) == 0.0 {
      ScoreIsConfidenceTimesQuality(p);
    }
    StableSortUnique(Ranked(paths), paths, Score);
  }

  lemma FreePathList() returns (ranked: seq<PathData>)
    ensures |ranked| == 4 && ranked[0] == Sample("A", 9, None) && ranked[1] == Sample("B", 1, None)
    ensures ranked[2] == Sample("C", 9, Some(0.0)) && ranked[3] == Sample("D", 9, Some(5.0))
    ensures forall p :: p in ranked ==> p.confidence == 0.0
    ensures DistinctIds(ranked)
  {
    ranked := [Sample("A", 9, None), Sample("B", 1, None), Sample("C", 9, Some(0.0)), Sample("D", 9, Some(5.0))];
  }

  /** LOWEST_COST goes to the path that costs five although one is free. */
  lemma FreePathPassedOver() returns (ranked: seq<PathData>)
    ensures Ranked(ranked) == ranked && DistinctIds(ranked) && |ranked| == 4
    ensures ranked[2].unitPrice == Some(0.0) && PricedCandidate(ranked, 2)
    ensures ranked[3].unitPrice == Some(5.0) && Has(ranked, 3, LowestCost)
  {
    ranked := FreePathList();
    SamplesKeepOrder(ranked);
    FastestOfFour(ranked);
    PricedOfFour(ranked);
  }

  lemma FastestOfFour(ranked: seq<PathData>)
    requires |ranked| == 4 && DistinctIds(ranked)
    requires ranked[1].totalLeadTimeDays < ranked[2].totalLeadTimeDays && ranked[1].totalLeadTimeDays < ranked[3].totalLeadTimeDays
    ensures Has(ranked, 1, Fastest)
  {
    LabelIsChoice(ranked, Fastest, 1);
    FirstLeastExactly(ranked, Fastest, UsedFor(ranked, Fastest), 1);
  }

  lemma PricedOfFour(ranked: seq<PathData>)
    requires |ranked| == 4 && DistinctIds(ranked) && Has(ranked, 1, Fastest)
    requires ranked[0].unitPrice == None && ranked[2].unitPrice == Some(0.0) && ranked[3].unitPrice == Some(5.0)
    ensures Has(ranked, 3, LowestCost) && PricedCandidate(ranked, 2)
  {
    LabelsPartition(ranked, 0, 1);
    LabelsPartition(ranked, 2, 1);
    LabelsPartition(ranked, 3, 1);
    LabelIsChoice(ranked, LowestCost, 1);
    LabelIsChoice(ranked, LowestCost, 2);
    LabelIsChoice(ranked, LowestCost, 3);
    FirstLeastExactly(ranked, LowestCost, UsedFor(ranked, LowestCost), 3);
  }

  /** The second path with an id gets no label. */
  lemma RepeatedIdUnlabelled() returns (ranked: seq<PathData>)
    ensures Ranked(ranked) == ranked && |ranked| == 2 && ranked[0] != ranked[1] && ranked[0].pathId == ranked[1].pathId
    ensures LabelOf(ranked, 1).None?
  {
    ranked := [Sample("A", 1, None), Sample("A", 2, None)];
    SamplesKeepOrder(ranked);
    assert Picked(ranked, 0);
    UnlabelledExactly(ranked, 1);
  }

  class LeadTimePath {
    const data: PathData
    var rank: int
    var tag: Option<Label>

    constructor (data: PathData)
      ensures this.data == data && rank == 0 && tag == None
    {
      this.data := data;
      rank, tag := 0, None;
    }
  }

  function ScoreOf(p: LeadTimePath): real {
    CompositeScore(p.data)
  }

  function DataOf(paths: seq<LeadTimePath>): (data: seq<PathData>)
    ensures |data| == |paths| && forall i :: 0 <= i < |paths| ==> data[i] == paths[i].data
  {
    seq(|paths|, i requires 0 <= i < |paths| => paths[i].data)
  }

  lemma {:induction false} InsertData(sorted: seq<LeadTimePath>, x: LeadTimePath)
    ensures DataOf(InsertDesc(sorted, x, ScoreOf)) == InsertDesc(DataOf(sorted), x.data, Score)
  {
    if sorted != [] {
      InsertData(sorted[1..], x);
      assert DataOf(sorted)[1..] == DataOf(sorted[1..]);
      if ScoreOf(sorted[0]) >= ScoreOf(x) {
        var rest := InsertDesc(sorted[1..], x, ScoreOf);
        assert DataOf([sorted[0]] + rest) == [sorted[0].data] + DataOf(rest);
      } else {
        assert DataOf([x] + sorted) == [x.data] + DataOf(sorted);
      }
    } else {
      assert DataOf([x]) == [x.data];
    }
  }

  /** Sorting the objects sorts their data. */
  lemma {:induction false} SortData(paths: seq<LeadTimePath>)
    ensures DataOf(StableDesc(paths, ScoreOf)) == Ranked(DataOf(paths))
  {
    if paths != [] {
      var init := paths[..|paths| - 1];
      SortData(init);
      InsertData(StableDesc(init, ScoreOf), paths[|paths| - 1]);
      assert DataOf(paths)[..|paths| - 1] == DataOf(init);
    }
  }

  ghost predicate AllDifferent(paths: seq<LeadTimePath>) {
    forall i, j :: 0 <= i < j < |paths| ==> paths[i] != paths[j]
  }

  ghost function Tags(paths: seq<LeadTimePath>): (tags: seq<Option<Label>>)
    reads paths
    ensures |tags| == |paths| && forall i :: 0 <= i < |paths| ==> tags[i] == paths[i].tag
  {
    seq(|paths|, i requires 0 <= i < |paths| reads paths => paths[i].tag)
  }

  ghost predicate RankedInOrder(paths: seq<LeadTimePath>)
    reads paths
  {
    forall i :: 0 <= i < |paths| ==> paths[i].rank == i + 1
  }

  lemma SortKeepsDifferent(paths: seq<LeadTimePath>) returns (sorted: seq<LeadTimePath>)
    requires AllDifferent(paths)
    ensures sorted == StableDesc(paths, ScoreOf) && AllDifferent(sorted)
    ensures |sorted| == |paths| && forall i :: 0 <= i < |sorted| ==> sorted[i] in paths
  {
    StableDescIsStable(paths, ScoreOf);
    sorted := StableDesc(paths, ScoreOf);
    PermutationKeepsDifferent(paths, sorted);
  }

  lemma PermutationKeepsDifferent(paths: seq<LeadTimePath>, sorted: seq<LeadTimePath>)
    requires AllDifferent(paths) && multiset(sorted) == multiset(paths)
    ensures AllDifferent(sorted)
    ensures forall i :: 0 <= i < |sorted| ==> sorted[i] in paths
  {
    forall i | 0 <= i < |sorted|
      ensures sorted[i] in paths
    {
      assert sorted[i] in multiset(sorted);
    }
    forall i, j | 0 <= i < j < |sorted|
      ensures sorted[i] != sorted[j]
    {
      AtMostOnce(paths, sorted[i]);
      if sorted[i] == sorted[j] {
        TwiceCounts(sorted, i, j);
      }
    }
  }

  lemma {:induction false} AtMostOnce(paths: seq<LeadTimePath>, p: LeadTimePath)
    requires AllDifferent(paths)
    ensures multiset(paths)[p] <= 1
  {
    if paths != [] {
      var init := paths[..|paths| - 1];
      AtMostOnce(init, p);
      assert paths == init + [paths[|paths| - 1]];
      if p == paths[|paths| - 1] {
        assert p !in init;
      }
    }
  }

  lemma TwiceCounts(paths: seq<LeadTimePath>, i: nat, j: nat)
    requires i < j < |paths| && paths[i] == paths[j]
    ensures multiset(paths)[paths[i]] >= 2
  {
    var a, b := paths[..j], paths[j..];
    assert paths == a + b;
    assert a[i] == paths[i] && b[0] == paths[i];
    assert paths[i] in multiset(a) && paths[i] in multiset(b);
  }

  ghost function Ranks(paths: seq<LeadTimePath>): (ranks: seq<int>)
    reads paths
    ensures |ranks| == |paths| && forall i :: 0 <= i < |paths| ==> ranks[i] == paths[i].rank
  {
    seq(|paths|, i requires 0 <= i < |paths| reads paths => paths[i].rank)
  }

  method SetTag(paths: seq<LeadTimePath>, i: nat, tag: Label)
    requires AllDifferent(paths) && i < |paths|
    modifies paths
    ensures Tags(paths) == old(Tags(paths))[i := Some(tag)]
    ensures Ranks(paths) == old(Ranks(paths))
  {
    assert paths[i] in paths;
    paths[i].tag := Some(tag);
  }

  method SetRank(paths: seq<LeadTimePath>, i: nat, rank: int)
    requires AllDifferent(paths) && i < |paths|
    modifies paths
    ensures Ranks(paths) == old(Ranks(paths))[i := rank]
    ensures Tags(paths) == old(Tags(paths))
  {
    assert paths[i] in paths;
    paths[i].rank := rank;
  }

  ghost function WithChoice(tags: seq<Option<Label>>, choice: Option<nat>, stage: Label): seq<Option<Label>>
    requires choice.Some? ==> choice.value < |tags|
  {
    if choice.Some? then tags[choice.value := Some(stage)] else tags
  }

  /** Sets the label of a stage, if the stage chose anybody. */
  method GiveStage(ranked: seq<LeadTimePath>, stage: Label, used: set<string>)
    returns (choice: Option<nat>, used': set<string>)
    requires AllDifferent(ranked)
    modifies ranked
    ensures choice == FirstLeast(DataOf(ranked), stage, used)
    ensures used' == Use(DataOf(ranked), used, choice)
    ensures Tags(ranked) == WithChoice(old(Tags(ranked)), choice, stage)
    ensures Ranks(ranked) == old(Ranks(ranked))
  {
    choice := FirstLeast(DataOf(ranked), stage, used);
    used' := used;
    if choice.Some? {
      SetTag(ranked, choice.value, stage);
      used' := used + {ranked[choice.value].data.pathId};
    }
  }

  /** The label of position `k` at the end, given the labels before. */
  ghost function TagOf(data: seq<PathData>, before: seq<Option<Label>>, k: nat): Option<Label>
    requires k < |data| == |before|
  {
    if LabelOf(data, k).Some? then LabelOf(data, k) else before[k]
  }

  predicate AtPosition(choice: Option<nat>, n: nat) {
    choice.Some? ==> 0 < choice.value < n
  }

  predicate Apart(a: Option<nat>, b: Option<nat>) {
    a.Some? && b.Some? ==> a.value != b.value
  }

  /** What three stages at different positions leave at position `k`. */
  lemma TagAfterStages(before: seq<Option<Label>>, fastest: Option<nat>, cheapest: Option<nat>, safest: Option<nat>, k: nat)
    requires k < |before|
    requires AtPosition(fastest, |before|) && AtPosition(cheapest, |before|) && AtPosition(safest, |before|)
    requires Apart(fastest, cheapest) && Apart(fastest, safest) && Apart(cheapest, safest)
    ensures var tags := WithChoice(WithChoice(WithChoice(before[0 := Some(BestOverall)], fastest, Fastest), cheapest, LowestCost), safest, Safest);
            && |tags| == |before|
            && tags[k] == if k == 0 then Some(BestOverall)
                          else if fastest == Some(k) then Some(Fastest)
                          else if cheapest == Some(k) then Some(LowestCost)
                          else if safest == Some(k) then Some(Safest)
                          else before[k]
  {
  }

  lemma ChoicesAreApart(data: seq<PathData>)
    requires data != []
    ensures var st := StagesOf(data);
            && AtPosition(st.fastest, |data|) && AtPosition(st.cheapest, |data|) && AtPosition(st.safest, |data|)
            && Apart(st.fastest, st.cheapest) && Apart(st.fastest, st.safest) && Apart(st.cheapest, st.safest)
  {
    ChoicesAreFresh(data);
    var st := StagesOf(data);
    UsedIds(data, data[0].pathId);
    if st.fastest.Some? {
      UsedIds(data, data[st.fastest.value].pathId);
    }
    if st.cheapest.Some? {
      UsedIds(data, data[st.cheapest.value].pathId);
    }
  }

  lemma StageTagsAreLabels(data: seq<PathData>, before: seq<Option<Label>>, k: nat)
    requires k < |data| == |before|
    ensures var st := StagesOf(data);
            && (st.fastest.Some? ==> st.fastest.value < |data|)
            && (st.cheapest.Some? ==> st.cheapest.value < |data|)
            && (st.safest.Some? ==> st.safest.value < |data|)
            && var tags := WithChoice(WithChoice(WithChoice(before[0 := Some(BestOverall)], st.fastest, Fastest),
                                                 st.cheapest, LowestCost), st.safest, Safest);
               && |tags| == |data|
               && tags[k] == if data[k].pathId in st.used3 then TagOf(data, before, k) else before[k]
  {
    var st := StagesOf(data);
    ChoicesAreApart(data);
    UsedIds(data, data[k].pathId);
    TagAfterStages(before, st.fastest, st.cheapest, st.safest, k);
  }

  /** Numbers the list from one; labels are left alone. */
  method NumberRanks(scored: seq<LeadTimePath>)
    requires AllDifferent(scored)
    modifies scored
    ensures RankedInOrder(scored) && Tags(scored) == old(Tags(scored))
  {
    for i := 0 to |scored|
      invariant forall k :: 0 <= k < i ==> Ranks(scored)[k] == k + 1
      invariant Tags(scored) == old(Tags(scored))
    {
      SetRank(scored, i, i + 1);
    }
    assert forall k :: 0 <= k < |scored| ==> scored[k].rank == Ranks(scored)[k];
  }

  method SortByScore(paths: seq<LeadTimePath>) returns (scored: seq<LeadTimePath>)
    requires AllDifferent(paths)
    ensures scored == StableDesc(paths, ScoreOf)
    ensures AllDifferent(scored)
    ensures |scored| == |paths| && forall i :: 0 <= i < |scored| ==> scored[i] in paths
  {
    ghost var sorted := SortKeepsDifferent(paths);
    scored := StableDesc(paths, ScoreOf);
    assert scored == sorted;
  }

  method RankPaths(paths: seq<LeadTimePath>) returns (scored: seq<LeadTimePath>)
    requires AllDifferent(paths)
    modifies paths
    ensures scored == StableDesc(paths, ScoreOf)
    ensures AllDifferent(scored)
    ensures |scored| == |paths| && forall i :: 0 <= i < |scored| ==> scored[i] in paths
    ensures RankedInOrder(scored)
    ensures (forall i :: 0 <= i < |paths| ==> old(paths[i].tag).None?) ==> forall i :: 0 <= i < |scored| ==> scored[i].tag.None?
  {
    scored := SortByScore(paths);
    ghost var before := Tags(scored);
    NumberRanks(scored);
    assert forall i :: 0 <= i < |scored| ==> scored[i].tag == before[i];
  }

  /** Every position that gets a label shows it. */
  ghost predicate Labelled(ranked: seq<LeadTimePath>)
    reads ranked
  {
    forall i :: 0 <= i < |ranked| && LabelOf(DataOf(ranked), i).Some? ==> ranked[i].tag == LabelOf(DataOf(ranked), i)
  }

  /** The rest: BACKUP for every path whose id no stage used. */
  method LabelRest(ranked: seq<LeadTimePath>, usedIds: set<string>, ghost before: seq<Option<Label>>, ghost final: seq<Option<Label>>)
    requires AllDifferent(ranked) && |before| == |final| == |ranked|
    requires forall k :: 0 <= k < |ranked| ==> Tags(ranked)[k] == if ranked[k].data.pathId in usedIds then final[k] else before[k]
    requires forall k :: 0 <= k < |ranked| && ranked[k].data.pathId !in usedIds ==> final[k] == Some(Backup)
    modifies ranked
    ensures Ranks(ranked) == old(Ranks(ranked))
    ensures Tags(ranked) == final
  {
    for i := 0 to |ranked|
      invariant Ranks(ranked) == old(Ranks(ranked))
      invariant forall k :: 0 <= k < |ranked| && (k < i || ranked[k].data.pathId in usedIds) ==> Tags(ranked)[k] == final[k]
    {
      if ranked[i].data.pathId !in usedIds {
        SetTag(ranked, i, Backup);
      }
    }
  }

  lemma UnusedIsBackup(data: seq<PathData>, i: nat)
    requires i < |data| && data[i].pathId !in StagesOf(data).used3
    ensures Has(data, i, Backup)
  {
    UsedIds(data, data[i].pathId);
    ChoicesAreFresh(data);
  }

  ghost function FinalTags(data: seq<PathData>, before: seq<Option<Label>>): (final: seq<Option<Label>>)
    requires |data| == |before|
    ensures |final| == |data| && forall k :: 0 <= k < |data| ==> final[k] == TagOf(data, before, k)
  {
    seq(|data|, k requires 0 <= k < |data| => TagOf(data, before, k))
  }

  /** The stages, on an already ranked list. */
  method LabelRanked(ranked: seq<LeadTimePath>)
    requires AllDifferent(ranked) && ranked != []
    modifies ranked
    ensures Ranks(ranked) == old(Ranks(ranked))
    ensures Tags(ranked) == FinalTags(DataOf(ranked), old(Tags(ranked)))
  {
    ghost var data, before := DataOf(ranked), Tags(ranked);
    ghost var final := FinalTags(data, before);
    SetTag(ranked, 0, BestOverall);
    var usedIds := {ranked[0].data.pathId};
    var fastest, cheapest, safest;
    fastest, usedIds := GiveStage(ranked, Fastest, usedIds);
    cheapest, usedIds := GiveStage(ranked, LowestCost, usedIds);
    safest, usedIds := GiveStage(ranked, Safest, usedIds);
    forall k | 0 <= k < |ranked|
      ensures Tags(ranked)[k] == if data[k].pathId in usedIds then final[k] else before[k]
      ensures data[k].pathId !in usedIds ==> final[k] == Some(Backup)
    {
      StageTagsAreLabels(data, before, k);
      if data[k].pathId !in usedIds {
        UnusedIsBackup(data, k);
      }
    }
    LabelRest(ranked, usedIds, before, final);
  }

  /** The objects get the ranks of the stable sort and the labels of the stages;
      paths that had no label show exactly those. */
  method AssignLabels(paths: seq<LeadTimePath>) returns (ranked: seq<LeadTimePath>)
    requires AllDifferent(paths)
    modifies paths
    ensures ranked == StableDesc(paths, ScoreOf)
    ensures DataOf(ranked) == Ranked(DataOf(paths))
    ensures |ranked| == |paths| && forall i :: 0 <= i < |ranked| ==> ranked[i] in paths
    ensures RankedInOrder(ranked) && Labelled(ranked)
    ensures (forall i :: 0 <= i < |paths| ==> old(paths[i].tag).None?) ==>
              forall i :: 0 <= i < |ranked| ==> ranked[i].tag == LabelOf(DataOf(ranked), i)
  {
    SortData(paths);
    if paths == [] {
      return paths;
    }
    ranked := RankPaths(paths);
    ghost var before, ranks := Tags(ranked), Ranks(ranked);
    LabelRanked(ranked);
    TagsRead(ranked, before, ranks);
  }

  lemma TagsRead(ranked: seq<LeadTimePath>, before: seq<Option<Label>>, ranks: seq<int>)
    requires |ranked| == |before| == |ranks| && ranks == Ranks(ranked)
    requires forall k :: 0 <= k < |ranks| ==> ranks[k] == k + 1
    requires Tags(ranked) == FinalTags(DataOf(ranked), before)
    ensures RankedInOrder(ranked) && Labelled(ranked)
    ensures forall i :: 0 <= i < |ranked| ==> ranked[i].tag == TagOf(DataOf(ranked), before, i)
  {
    forall i | 0 <= i < |ranked|
      ensures ranked[i].tag == TagOf(DataOf(ranked), before, i) && ranked[i].rank == i + 1
    {
      assert Tags(ranked)[i] == ranked[i].tag && Ranks(ranked)[i] == ranked[i].rank;
    }
  }
}
