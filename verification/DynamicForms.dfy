/**
 Versioned order forms: an append-only chain of snapshots per form, merged
 updates, locking, and the provenance of each field.

 The requirement extractor and the missing-field detector are parameters. Lists
 of field names are modelled as sets where the source treats them as sets.
 */
module DynamicForms {
  import opened Wrappers

  datatype Value = VNull | VBool(b: bool) | VText(text: string) | VList(items: seq<string>)

  type Fields = map<string, Value>

  datatype Extractors = Extractors(
    required: seq<string>,
    detectMissing: Fields -> seq<string>,
    clarify: (Fields, seq<string>) -> seq<string>)

  datatype Version = Version(
    formId: string,
    number: int,
    fields: Fields,
    aiGenerated: set<string>,
    humanConfirmed: set<string>,
    missing: seq<string>)

  datatype Form = Form(formId: string, projectId: string, currentVersion: int, isLocked: bool)

  datatype World = World(forms: map<string, Form>, versions: seq<Version>)

  const MISSING := "missing_fields"
  const QUESTIONS := "clarification_questions"

  function Get(fields: Fields, key: string): Value {
    if key in fields then fields[key] else VNull
  }

  predicate Truthy(v: Value) {
    match v
    case VNull => false
    case VBool(b) => b
    case VText(t) => t != ""
    case VList(items) => items != []
  }

  predicate IsPrivate(key: string) {
    key != "" && key[0] == '_'
  }

  // ---------------------------------------------------------------------
  // Operations on the stored rows
  // ---------------------------------------------------------------------

  predicate HasForm(w: World, projectId: string) {
    exists id :: id in w.forms && w.forms[id].projectId == projectId
  }

  /** The first snapshot, from what the extractor returned; None means it raised. */
  function FirstVersion(x: Extractors, formId: string, extraction: Option<Fields>): (v: Version)
    ensures v.formId == formId && v.number == 1 && v.humanConfirmed == {}
  {
    var extracted := if extraction.Some? then extraction.value else map["_ai_generated" := VBool(true), "_error" := VBool(true)];
    var failed := Truthy(Get(extracted, "_stub")) || Truthy(Get(extracted, "_error"));
    var missing := if failed then x.required else x.detectMissing(extracted);
    var questions := x.clarify(if failed then map[] else extracted, missing);
    var ai := if failed then {} else set k | k in extracted && extracted[k] != VNull && !IsPrivate(k);
    var kept := map k | k in extracted && !IsPrivate(k) :: extracted[k];
    Version(formId, 1, kept[QUESTIONS := VList(questions)][MISSING := VList(missing)], ai, {}, missing)
  }

  /** The row with the highest version number of a form, as the query orders it. */
  function Highest(versions: seq<Version>, formId: string): Option<Version> {
    if versions == [] then None
    else
      var last, before := versions[|versions| - 1], Highest(versions[..|versions| - 1], formId);
      if last.formId == formId && (before.None? || before.value.number <= last.number) then Some(last) else before
  }

  /** The row with a given version number of a form. */
  function Numbered(versions: seq<Version>, formId: string, number: int): Option<Version> {
    if versions == [] then None
    else
      var last := versions[|versions| - 1];
      if last.formId == formId && last.number == number then Some(last)
      else Numbered(versions[..|versions| - 1], formId, number)
  }

  function NextVersion(x: Extractors, current: Option<Version>, formId: string, updates: Fields, confirmed: set<string>): Version {
    var prevFields := if current.Some? then current.value.fields else map[];
    var prevAi := if current.Some? then current.value.aiGenerated else {};
    var prevHuman := if current.Some? then current.value.humanConfirmed else {};
    var merged := prevFields + updates;
    var missing := x.detectMissing(merged);
    Version(formId, if current.Some? then current.value.number + 1 else 1,
            merged[MISSING := VList(missing)], prevAi - confirmed, prevHuman + confirmed, missing)
  }

  function AddForm(w: World, form: Form, first: Version): World {
    World(w.forms[form.formId := form], w.versions + [first])
  }

  function AddVersion(w: World, v: Version): World
    requires v.formId in w.forms
  {
    World(w.forms[v.formId := w.forms[v.formId].(currentVersion := v.number)], w.versions + [v])
  }

  lemma {:induction false} HighestIsGreatest(versions: seq<Version>, formId: string)
    ensures var v := Highest(versions, formId);
            && (v.Some? ==>
                  && v.value in versions && v.value.formId == formId
                  && forall u :: u in versions && u.formId == formId ==> u.number <= v.value.number)
            && (v.None? ==> forall u :: u in versions ==> u.formId != formId)
  {
    if versions != [] {
      var before, last := versions[..|versions| - 1], versions[|versions| - 1];
      HighestIsGreatest(before, formId);
      assert forall u :: u in versions <==> u in before || u == last;
    }
  }

  lemma {:induction false} NumberedIsThere(versions: seq<Version>, formId: string, number: int)
    ensures var v := Numbered(versions, formId, number);
            && (v.Some? ==> v.value in versions && v.value.formId == formId && v.value.number == number)
            && (v.None? ==> forall u :: u in versions && u.formId == formId ==> u.number != number)
  {
    if versions != [] {
      var before, last := versions[..|versions| - 1], versions[|versions| - 1];
      NumberedIsThere(before, formId, number);
      assert forall u :: u in versions <==> u in before || u == last;
    }
  }

  datatype UpdateError = NoSuchForm | Locked

  /** `v` is what an update makes of the version before it, if there is one: the next
      number, the merged fields with the list of those the detector misses among
      them, and the confirmed fields moved from generated to confirmed. */
  ghost predicate Follows(x: Extractors, before: Option<Version>, formId: string, updates: Fields, confirmed: set<string>, v: Version) {
    && v.formId == formId
    && v.number == (if before.Some? then before.value.number + 1 else 1)
    && v.missing == x.detectMissing(if before.Some? then before.value.fields + updates else updates)
    && (forall k :: k in v.fields <==>
          k == "missing_fields" || k in updates || (before.Some? && k in before.value.fields))
    && (forall k :: k in v.fields ==>
          v.fields[k] == if k == "missing_fields" then VList(v.missing)
                         else if k in updates then updates[k]
                         else before.value.fields[k])
    && v.humanConfirmed == (if before.Some? then before.value.humanConfirmed + confirmed else confirmed)
    && v.aiGenerated == (if before.Some? then before.value.aiGenerated - confirmed else {})
  }

  class FormService {
    var forms: map<string, Form>
    var versions: seq<Version>

    ghost function State(): World
      reads this
    {
      World(forms, versions)
    }

    constructor ()
      ensures State() == World(map[], [])
    {
      forms, versions := map[], [];
    }

    /** Returns no version when the inquiry does not exist; fails when the project
        already has a form (its project column is unique). */
    method CreateFromInquiry(x: Extractors, projectId: string, inquiryExists: bool, extraction: Option<Fields>, freshId: string)
      returns (r: Result<Option<Version>, string>)
      requires freshId !in forms
      modifies this
      ensures State() == Do(x, old(State()), Create(projectId, inquiryExists, extraction, freshId))
      ensures r == if !inquiryExists then Success(None)
                   else if HasForm(old(State()), projectId) then Failure("IntegrityError")
                   else Success(Some(FirstVersion(x, freshId, extraction)))
      ensures if r.Success? && r.value.Some?
              then
                && forms == old(forms)[freshId := Form(freshId, projectId, 1, false)]
                && versions == old(versions) + [r.value.value]
              else State() == old(State())
    {
      if !inquiryExists {
        return Success(None);
      }
      if exists id :: id in forms && forms[id].projectId == projectId {
        return Failure("IntegrityError");
      }
      var version := FirstVersion(x, freshId, extraction);
      forms := forms[freshId := Form(freshId, projectId, 1, false)];
      versions := versions + [version];
      r := Success(Some(version));
    }

    method UpdateFormFields(x: Extractors, formId: string, updates: Fields, confirmed: set<string>)
      returns (r: Result<Version, UpdateError>)
      modifies this
      ensures State() == Do(x, old(State()), Update(formId, updates, confirmed))
      ensures r.Success? <==> formId in old(forms) && !old(forms)[formId].isLocked
      ensures r.Failure? ==> r.error == (if formId in old(forms) then Locked else NoSuchForm) && State() == old(State())
      ensures r.Success? ==>
                && versions == old(versions) + [r.value]
                && forms == old(forms)[formId := old(forms)[formId].(currentVersion := r.value.number)]
                && Follows(x, Highest(old(versions), formId), formId, updates, confirmed, r.value)
    {
      if formId !in forms {
        return Failure(NoSuchForm);
      }
      var form := forms[formId];
      if form.isLocked {
        return Failure(Locked);
      }
      var current := Highest(versions, formId);
      var prevFields: Fields, prevAi: set<string>, prevHuman: set<string> := map[], {}, {};
      var newVersionNumber := 1;
      if current.Some? {
        prevFields, prevAi, prevHuman := current.value.fields, current.value.aiGenerated, current.value.humanConfirmed;
        newVersionNumber := current.value.number + 1;
      }
      var merged := prevFields + updates;
      assert current.None? ==> merged == updates;
      var newAi, newHuman := prevAi - confirmed, prevHuman + confirmed;
      var missing := x.detectMissing(merged);
      merged := merged[MISSING := VList(missing)];
      var version := Version(formId, newVersionNumber, merged, newAi, newHuman, missing);
      versions := versions + [version];
      forms := forms[formId := form.(currentVersion := newVersionNumber)];
      r := Success(version);
    }

    /** Locks a known form; every other form, field and version is as before. */
    method LockForm(formId: string) returns (found: bool)
      modifies this
      ensures found <==> formId in old(forms)
      ensures found ==> formId in forms && forms[formId].isLocked
      ensures found ==> forms == old(forms)[formId := Form(old(forms)[formId].formId, old(forms)[formId].projectId,
                                                             old(forms)[formId].currentVersion, true)]
      ensures !found ==> forms == old(forms)
      ensures versions == old(versions)
      ensures forall x :: State() == Do(x, old(State()), Lock(formId))
    {
      found := formId in forms;
      if found {
        forms := forms[formId := forms[formId].(isLocked := true)];
      }
    }

    /** The lookup of the order-form screens: a row of the form that no other row of
        the form outnumbers, unless the form is unknown or has no rows. */
    method GetCurrentForm(formId: string) returns (v: Option<Version>)
      ensures v.Some? ==>
                && formId in forms && v.value in versions && v.value.formId == formId
                && forall u :: u in versions && u.formId == formId ==> u.number <= v.value.number
      ensures v.None? <==> formId !in forms || forall u :: u in versions ==> u.formId != formId
      ensures formId in forms ==> v == Highest(versions, formId)
    {
      HighestIsGreatest(versions, formId);
      v := if formId in forms then Highest(versions, formId) else None;
    }

    /** The lookup of the decision packets: a row of the form that has the number of
        the form's own counter, unless the form is unknown or has no such row. */
    method LoadCurrentForm(formId: string) returns (v: Option<Version>)
      ensures v.Some? ==>
                && formId in forms && v.value in versions
                && v.value.formId == formId && v.value.number == forms[formId].currentVersion
      ensures v.None? <==>
                formId !in forms || forall u :: u in versions && u.formId == formId ==> u.number != forms[formId].currentVersion
      ensures formId in forms ==> v == Numbered(versions, formId, forms[formId].currentVersion)
    {
      if formId !in forms {
        return None;
      }
      NumberedIsThere(versions, formId, forms[formId].currentVersion);
      v := Numbered(versions, formId, forms[formId].currentVersion);
    }
  }

  // ---------------------------------------------------------------------
  // Runs
  // ---------------------------------------------------------------------

  /** `Import` is the confirmed-order handoff, which stores a locked form. */
  datatype Op =
    | Create(projectId: string, inquiryExists: bool, extraction: Option<Fields>, freshId: string)
    | Update(formId: string, updates: Fields, confirmed: set<string>)
    | Lock(formId: string)
    | Import(projectId: string, requirement: Fields, freshId: string)

  predicate Updates(w: World, op: Op, formId: string) {
    op.Update? && op.formId == formId && formId in w.forms && !w.forms[formId].isLocked
  }

  function Do(x: Extractors, w: World, op: Op): World {
    match op
    case Create(projectId, inquiryExists, extraction, id) =>
      if !inquiryExists || HasForm(w, projectId) || id in w.forms then w
      else AddForm(w, Form(id, projectId, 1, false), FirstVersion(x, id, extraction))
    case Update(formId, updates, confirmed) =>
      if !Updates(w, op, formId) then w
      else AddVersion(w, NextVersion(x, Highest(w.versions, formId), formId, updates, confirmed))
    case Lock(formId) =>
      if formId in w.forms then w.(forms := w.forms[formId := w.forms[formId].(isLocked := true)]) else w
    case Import(projectId, requirement, id) =>
      if HasForm(w, projectId) || id in w.forms then w
      else AddForm(w, Form(id, projectId, 1, true), Version(id, 1, requirement, {}, requirement.Keys, []))
  }

  function Run(x: Extractors, ops: seq<Op>): World {
    if ops == [] then World(map[], []) else Do(x, Run(x, ops[..|ops| - 1]), ops[|ops| - 1])
  }

  /** The versions of one form, oldest first. */
  function Chain(versions: seq<Version>, formId: string): seq<Version> {
    if versions == [] then []
    else Chain(versions[..|versions| - 1], formId)
         + if versions[|versions| - 1].formId == formId then [versions[|versions| - 1]] else []
  }

  lemma ChainSnoc(versions: seq<Version>, v: Version, formId: string)
    ensures Chain(versions + [v], formId) == Chain(versions, formId) + if v.formId == formId then [v] else []
    ensures Highest(versions + [v], formId) ==
            (var before := Highest(versions, formId);
             if v.formId == formId && (before.None? || before.value.number <= v.number) then Some(v) else before)
    ensures Numbered(versions + [v], formId, v.number) ==
            if v.formId == formId then Some(v) else Numbered(versions, formId, v.number)
  {
    assert (versions + [v])[..|versions + [v]| - 1] == versions;
  }

  /** Versions are numbered 1..n, and the counter and both lookups point at n. */
  ghost predicate FormValid(w: World, formId: string) {
    var chain := Chain(w.versions, formId);
    if formId in w.forms then
      && chain != []
      && w.forms[formId].currentVersion == |chain|
      && (forall k :: 0 <= k < |chain| ==> chain[k].formId == formId && chain[k].number == k + 1)
      && Highest(w.versions, formId) == Some(chain[|chain| - 1])
      && Numbered(w.versions, formId, w.forms[formId].currentVersion) == Some(chain[|chain| - 1])
    else
      chain == [] && Highest(w.versions, formId) == None
  }

  lemma AppendToForm(w: World, forms: map<string, Form>, v: Version)
    requires FormValid(w, v.formId)
    requires v.formId in forms && forms[v.formId].currentVersion == v.number
    requires v.number == |Chain(w.versions, v.formId)| + 1
    ensures FormValid(World(forms, w.versions + [v]), v.formId)
  {
    ChainSnoc(w.versions, v, v.formId);
    var chain := Chain(w.versions, v.formId);
    assert Chain(w.versions + [v], v.formId) == chain + [v];
    if v.formId !in w.forms {
      assert chain == [];
    }
  }

  lemma AppendKeepsForm(w: World, forms: map<string, Form>, v: Version, formId: string)
    requires FormValid(w, formId) && FormValid(w, v.formId)
    requires v.formId in forms && forms[v.formId].currentVersion == v.number
    requires v.number == |Chain(w.versions, v.formId)| + 1
    requires v.formId != formId ==> (formId in forms <==> formId in w.forms)
    requires v.formId != formId && formId in w.forms ==> forms[formId].currentVersion == w.forms[formId].currentVersion
    ensures FormValid(World(forms, w.versions + [v]), formId)
  {
    if v.formId == formId {
      AppendToForm(w, forms, v);
    } else {
      ChainSnoc(w.versions, v, formId);
      if formId in w.forms {
        NumberedElsewhere(w.versions, v, formId, w.forms[formId].currentVersion);
      }
    }
  }

  lemma StepKeepsForm(x: Extractors, w: World, op: Op, formId: string)
    requires forall id :: FormValid(w, id)
    ensures FormValid(Do(x, w, op), formId)
  {
    var t := Do(x, w, op);
    assert FormValid(w, formId);
    if |t.versions| > |w.versions| {
      var v := t.versions[|w.versions|];
      assert FormValid(w, v.formId);
      AppendKeepsForm(w, t.forms, v, formId);
    }
  }

  lemma NumberedElsewhere(versions: seq<Version>, v: Version, formId: string, number: int)
    requires v.formId != formId
    ensures Numbered(versions + [v], formId, number) == Numbered(versions, formId, number)
  {
    assert (versions + [v])[..|versions + [v]| - 1] == versions;
  }

  /** After any run, every form has versions 1..n without gaps, its counter is n,
      and looking up the highest version or the counter's version is the same. */
  lemma {:induction false} FormsAlwaysValid(x: Extractors, ops: seq<Op>, formId: string)
    ensures FormValid(Run(x, ops), formId)
  {
    if ops != [] {
      var w := Run(x, ops[..|ops| - 1]);
      forall id ensures FormValid(w, id) {
        FormsAlwaysValid(x, ops[..|ops| - 1], id);
      }
      StepKeepsForm(x, w, ops[|ops| - 1], formId);
    }
  }

  lemma LookupsAgree(x: Extractors, ops: seq<Op>, formId: string)
    requires formId in Run(x, ops).forms
    ensures var w := Run(x, ops);
            && Highest(w.versions, formId).Some?
            && Highest(w.versions, formId) == Numbered(w.versions, formId, w.forms[formId].currentVersion)
  {
    FormsAlwaysValid(x, ops, formId);
  }

  // ---------------------------------------------------------------------
  // Snapshots are permanent, and a locked form is finished
  // ---------------------------------------------------------------------

  lemma {:induction false} RunConcat(x: Extractors, earlier: seq<Op>, later: seq<Op>)
    ensures Run(x, earlier).versions <= Run(x, earlier + later).versions
    ensures forall id :: id in Run(x, earlier).forms ==>
              && id in Run(x, earlier + later).forms
              && (Run(x, earlier).forms[id].isLocked ==> Run(x, earlier + later).forms[id].isLocked)
  {
    if later == [] {
      assert earlier + later == earlier;
    } else {
      assert (earlier + later)[..|earlier + later| - 1] == earlier + later[..|later| - 1];
      RunConcat(x, earlier, later[..|later| - 1]);
    }
  }

  lemma ChainStep(x: Extractors, w: World, op: Op, formId: string)
    ensures Chain(w.versions, formId) <= Chain(Do(x, w, op).versions, formId)
    ensures formId in w.forms && w.forms[formId].isLocked ==> Chain(Do(x, w, op).versions, formId) == Chain(w.versions, formId)
  {
    var t := Do(x, w, op);
    if t.versions != w.versions {
      var v := t.versions[|w.versions|];
      assert t.versions == w.versions + [v];
      ChainSnoc(w.versions, v, formId);
    }
  }

  /** Whatever happens later, the snapshots of a form are a prefix of its later
      snapshots, and equal to them once the form is locked. */
  lemma {:induction false} SnapshotsArePermanent(x: Extractors, earlier: seq<Op>, later: seq<Op>, formId: string)
    ensures Chain(Run(x, earlier).versions, formId) <= Chain(Run(x, earlier + later).versions, formId)
    ensures formId in Run(x, earlier).forms && Run(x, earlier).forms[formId].isLocked ==>
              Chain(Run(x, earlier + later).versions, formId) == Chain(Run(x, earlier).versions, formId)
  {
    if later == [] {
      assert earlier + later == earlier;
    } else {
      var init, op := earlier + later[..|later| - 1], later[|later| - 1];
      assert (earlier + later)[..|earlier + later| - 1] == init;
      SnapshotsArePermanent(x, earlier, later[..|later| - 1], formId);
      RunConcat(x, earlier, later[..|later| - 1]);
      ChainStep(x, Run(x, init), op, formId);
    }
  }

  /** Locking is for good: whatever comes after, the form stays locked, no update of
      it goes through, and its snapshots are those it had when it was locked. */
  lemma LockIsFinal(x: Extractors, earlier: seq<Op>, later: seq<Op>, formId: string, updates: Fields, confirmed: set<string>)
    requires formId in Run(x, earlier).forms
    ensures var w := Run(x, earlier + [Lock(formId)] + later);
            && formId in w.forms && w.forms[formId].isLocked
            && Chain(w.versions, formId) == Chain(Run(x, earlier).versions, formId)
            && Do(x, w, Update(formId, updates, confirmed)) == w
  {
    var locked := earlier + [Lock(formId)];
    assert locked[..|locked| - 1] == earlier;
    assert Run(x, locked) == Do(x, Run(x, earlier), Lock(formId));
    RunConcat(x, locked, later);
    SnapshotsArePermanent(x, locked, later, formId);
  }

  /** A form that comes with a confirmed order has one version, all of it confirmed,
      and no update of it ever goes through. */
  lemma ImportedFormIsFinal(x: Extractors, earlier: seq<Op>, projectId: string, requirement: Fields, id: string, later: seq<Op>)
    requires !HasForm(Run(x, earlier), projectId) && id !in Run(x, earlier).forms
    ensures var w := Run(x, earlier + [Import(projectId, requirement, id)] + later);
            && id in w.forms && w.forms[id].isLocked
            && Chain(w.versions, id) == [Version(id, 1, requirement, {}, requirement.Keys, [])]
  {
    var op := Import(projectId, requirement, id);
    var imported := earlier + [op];
    assert imported[..|imported| - 1] == earlier;
    var w := Run(x, earlier);
    FormsAlwaysValid(x, earlier, id);
    ChainSnoc(w.versions, Version(id, 1, requirement, {}, requirement.Keys, []), id);
    assert Run(x, imported) == Do(x, w, op);
    RunConcat(x, imported, later);
    SnapshotsArePermanent(x, imported, later, id);
  }

  // ---------------------------------------------------------------------
  // What a version holds: the first one, and every update since, in order
  // ---------------------------------------------------------------------

  datatype Change = Change(updates: Fields, confirmed: set<string>)

  /** The updates of a form that went through during a run. */
  function Changes(x: Extractors, ops: seq<Op>, formId: string): seq<Change> {
    if ops == [] then []
    else
      var init, op := ops[..|ops| - 1], ops[|ops| - 1];
      Changes(x, init, formId) + if Updates(Run(x, init), op, formId) then [Change(op.updates, op.confirmed)] else []
  }

  function MergeAll(fields: Fields, changes: seq<Change>): Fields {
    if changes == [] then fields else MergeAll(fields, changes[..|changes| - 1]) + changes[|changes| - 1].updates
  }

  function ConfirmedIn(changes: seq<Change>): set<string> {
    if changes == [] then {} else ConfirmedIn(changes[..|changes| - 1]) + changes[|changes| - 1].confirmed
  }

  /** Equal apart from the computed list of missing fields. */
  predicate SameButMissing(a: Fields, b: Fields) {
    a - {MISSING} == b - {MISSING}
  }

  /** Version `k + 1` in terms of version 1 and the first `k` changes. */
  ghost predicate VersionExplained(x: Extractors, chain: seq<Version>, changes: seq<Change>, k: nat)
    requires k < |chain| <= |changes| + 1
  {
    && SameButMissing(chain[k].fields, MergeAll(chain[0].fields, changes[..k]))
    && chain[k].humanConfirmed == chain[0].humanConfirmed + ConfirmedIn(changes[..k])
    && chain[k].aiGenerated == chain[0].aiGenerated - ConfirmedIn(changes[..k])
    && (k > 0 ==>
          && chain[k].missing == x.detectMissing(chain[k - 1].fields + changes[k - 1].updates)
          && Get(chain[k].fields, MISSING) == VList(chain[k].missing))
  }

  ghost predicate Explained(x: Extractors, present: bool, chain: seq<Version>, changes: seq<Change>) {
    if present then
      && |chain| == |changes| + 1
      && (forall k :: 0 <= k < |chain| ==> VersionExplained(x, chain, changes, k))
      && chain[0].aiGenerated !! chain[0].humanConfirmed
    else
      chain == [] && changes == []
  }

  ghost predicate HistoryExplained(x: Extractors, ops: seq<Op>, formId: string) {
    Explained(x, formId in Run(x, ops).forms, Chain(Run(x, ops).versions, formId), Changes(x, ops, formId))
  }

  lemma MergeStep(prev: Fields, updates: Fields, missing: Value, expected: Fields)
    requires SameButMissing(prev, expected)
    ensures SameButMissing((prev + updates)[MISSING := missing], expected + updates)
  {
    var a, b := (prev + updates)[MISSING := missing] - {MISSING}, (expected + updates) - {MISSING};
    assert forall k :: k in prev && k != MISSING ==> k in prev - {MISSING};
    assert forall k :: k in expected && k != MISSING ==> k in expected - {MISSING};
    assert a.Keys == b.Keys;
    assert forall k :: k in a ==> a[k] == b[k];
  }

  lemma ExplainedExtends(x: Extractors, chain: seq<Version>, changes: seq<Change>, c: Change, v: Version)
    requires chain != [] && |chain| == |changes| + 1
    requires forall k :: 0 <= k < |chain| ==> VersionExplained(x, chain, changes, k)
    requires v == NextVersion(x, Some(chain[|chain| - 1]), v.formId, c.updates, c.confirmed)
    ensures forall k :: 0 <= k <= |chain| ==> VersionExplained(x, chain + [v], changes + [c], k)
  {
    var n := |chain|;
    assert VersionExplained(x, chain, changes, n - 1);
    assert changes[..n - 1] == changes && (changes + [c])[..n] == changes + [c];
    assert (changes + [c])[..|changes + [c]| - 1] == changes;
    var last := chain[n - 1];
    MergeStep(last.fields, c.updates, VList(v.missing), MergeAll(chain[0].fields, changes));
    forall k | 0 <= k < n
      ensures VersionExplained(x, chain + [v], changes + [c], k)
    {
      assert VersionExplained(x, chain, changes, k);
      assert (changes + [c])[..k] == changes[..k];
    }
  }

  /** An operation that neither creates nor updates a form leaves its chain alone. */
  lemma OtherStep(x: Extractors, w: World, op: Op, formId: string)
    requires !Updates(w, op, formId) && (formId in Do(x, w, op).forms ==> formId in w.forms)
    ensures Chain(Do(x, w, op).versions, formId) == Chain(w.versions, formId)
    ensures formId in w.forms ==> formId in Do(x, w, op).forms
  {
    var t := Do(x, w, op);
    if t.versions != w.versions {
      var v := t.versions[|w.versions|];
      assert t.versions == w.versions + [v];
      ChainSnoc(w.versions, v, formId);
    }
  }

  lemma FirstStep(x: Extractors, w: World, op: Op, formId: string)
    requires FormValid(w, formId) && formId !in w.forms && formId in Do(x, w, op).forms
    ensures |Chain(Do(x, w, op).versions, formId)| == 1
    ensures Chain(Do(x, w, op).versions, formId)[0].aiGenerated !! Chain(Do(x, w, op).versions, formId)[0].humanConfirmed
  {
    var v := if op.Create? then FirstVersion(x, formId, op.extraction) else Version(formId, 1, op.requirement, {}, op.requirement.Keys, []);
    assert Do(x, w, op).versions == w.versions + [v];
    ChainSnoc(w.versions, v, formId);
  }

  lemma UpdateStep(x: Extractors, w: World, op: Op, formId: string) returns (v: Version)
    requires FormValid(w, formId) && Updates(w, op, formId)
    ensures var chain := Chain(w.versions, formId);
            && chain != []
            && v == NextVersion(x, Some(chain[|chain| - 1]), v.formId, op.updates, op.confirmed)
            && Chain(Do(x, w, op).versions, formId) == chain + [v]
    ensures formId in Do(x, w, op).forms
  {
    v := NextVersion(x, Highest(w.versions, formId), formId, op.updates, op.confirmed);
    ChainSnoc(w.versions, v, formId);
  }

  lemma {:induction false} HistoryAlwaysExplained(x: Extractors, ops: seq<Op>, formId: string)
    ensures HistoryExplained(x, ops, formId)
  {
    if ops != [] {
      var init, op := ops[..|ops| - 1], ops[|ops| - 1];
      var w := Run(x, init);
      HistoryAlwaysExplained(x, init, formId);
      FormsAlwaysValid(x, init, formId);
      if Updates(w, op, formId) {
        var v := UpdateStep(x, w, op, formId);
        ExplainedExtends(x, Chain(w.versions, formId), Changes(x, init, formId), Change(op.updates, op.confirmed), v);
      } else if formId !in w.forms && formId in Do(x, w, op).forms {
        FirstStep(x, w, op, formId);
        var chain := Chain(Do(x, w, op).versions, formId);
        assert VersionExplained(x, chain, [], 0);
      } else {
        OtherStep(x, w, op, formId);
        assert Changes(x, ops, formId) == Changes(x, init, formId);
      }
    }
  }

  /** On every version the generated and the confirmed fields are disjoint, and
      along the chain the confirmed ones only grow and the generated ones only
      shrink: a field leaves the generated set exactly when it is confirmed. */
  lemma ProvenanceOnlyAdvances(x: Extractors, ops: seq<Op>, formId: string, i: nat, j: nat)
    requires i <= j < |Chain(Run(x, ops).versions, formId)|
    ensures var chain := Chain(Run(x, ops).versions, formId);
            && chain[j].aiGenerated !! chain[j].humanConfirmed
            && chain[i].humanConfirmed <= chain[j].humanConfirmed
            && chain[j].aiGenerated == chain[i].aiGenerated - chain[j].humanConfirmed
  {
    HistoryAlwaysExplained(x, ops, formId);
    FormsAlwaysValid(x, ops, formId);
    var chain, changes := Chain(Run(x, ops).versions, formId), Changes(x, ops, formId);
    assert VersionExplained(x, chain, changes, i) && VersionExplained(x, chain, changes, j);
    ConfirmedGrows(changes, i, j);
  }

  lemma {:induction false} ConfirmedGrows(changes: seq<Change>, i: nat, j: nat)
    requires i <= j <= |changes|
    ensures ConfirmedIn(changes[..i]) <= ConfirmedIn(changes[..j])
  {
    if i < j {
      assert changes[..j][..j - 1] == changes[..j - 1];
      ConfirmedGrows(changes, i, j - 1);
    }
  }

  /** Version `k + 1` of a form holds version 1's fields with the first `k`
      successful updates merged in order, and its own list of missing fields. */
  lemma FieldsAreMergedUpdates(x: Extractors, ops: seq<Op>, formId: string, k: nat)
    requires k < |Chain(Run(x, ops).versions, formId)|
    ensures var chain, changes := Chain(Run(x, ops).versions, formId), Changes(x, ops, formId);
            && |chain| == |changes| + 1
            && SameButMissing(chain[k].fields, MergeAll(chain[0].fields, changes[..k]))
            && (k > 0 ==> Get(chain[k].fields, MISSING) == VList(chain[k].missing))
            && (k > 0 ==> chain[k].missing == x.detectMissing(chain[k - 1].fields + changes[k - 1].updates))
  {
    HistoryAlwaysExplained(x, ops, formId);
    assert VersionExplained(x, Chain(Run(x, ops).versions, formId), Changes(x, ops, formId), k);
  }

  predicate Unusable(extraction: Option<Fields>) {
    extraction.None? || Truthy(Get(extraction.value, "_stub")) || Truthy(Get(extraction.value, "_error"))
  }

  /** A first version keeps every extracted public field with its value; what is
      missing is what the detector says of them, or everything required if the
      extraction cannot be used, and then no field counts as generated. */
  lemma FirstVersionKeepsExtraction(x: Extractors, formId: string, extraction: Option<Fields>)
    ensures var v := FirstVersion(x, formId, extraction);
            && (forall k :: extraction.Some? && k in extraction.value && !IsPrivate(k) && k !in {MISSING, QUESTIONS} ==>
                  k in v.fields && v.fields[k] == extraction.value[k])
            && (forall k :: k in v.fields && k !in {MISSING, QUESTIONS} ==> extraction.Some? && k in extraction.value)
            && (Unusable(extraction) ==> v.missing == x.required && v.aiGenerated == {})
            && (!Unusable(extraction) ==> v.missing == x.detectMissing(extraction.value))
            && (!Unusable(extraction) ==>
                  forall k :: k in v.aiGenerated <==> k in extraction.value && extraction.value[k] != VNull && !IsPrivate(k))
            && Get(v.fields, QUESTIONS) == VList(x.clarify(if Unusable(extraction) then map[] else extraction.value, v.missing))
  {
    if extraction.None? {
      var failed: Fields := map["_ai_generated" := VBool(true), "_error" := VBool(true)];
      assert Truthy(Get(failed, "_error"));
      assert forall k :: k in failed ==> IsPrivate(k);
    }
  }

  /** On a form that was created here the list is stored on version 1 as well. */
  lemma FirstVersionStoresMissing(x: Extractors, formId: string, extraction: Option<Fields>)
    ensures var v := FirstVersion(x, formId, extraction);
            && Get(v.fields, MISSING) == VList(v.missing)
            && v.aiGenerated !! v.humanConfirmed
            && (forall k :: k in v.fields ==> !IsPrivate(k))
            && (forall k :: k in v.aiGenerated ==> k in v.fields)
  {
  }
}
