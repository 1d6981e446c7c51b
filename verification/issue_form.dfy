/**
  The issue form: the state it edits, the list editors for tags, key points
  and success criteria, and the request a submission sends.
 */
module IssueForm {
  import opened Results
  import opened Store
  import opened Schema
  import opened Text
  import opened Access
  import opened Issues

  /** The form's state; the target date is the date input's value, as midnight UTC of the chosen day. */
  datatype IssueFormData = IssueFormData(
    title: string, description: string, status: IssueStatus, priority: Priority, tags: seq<string>,
    targetDate: Option<int>, notes: string, keyPoints: seq<string>, successCriteria: seq<string>)

  /** The state of an empty form. */
  const InitialForm := IssueFormData("", "", Active, Medium, [], None, "", [], [])

  /**
    Loading an issue into the form: missing lists become empty, and a target
    date is shown as its day (a zero date is falsy and shows as none).
   */
  function LoadIssue(r: Issue): (f: IssueFormData)
    ensures f.title == r.title && f.description == r.description && f.notes == r.notes
    ensures f.status == r.status && f.priority == r.priority && f.tags == r.tags
    ensures f.keyPoints == [] <==> r.keyPoints.None? || r.keyPoints == Some([])
    ensures r.keyPoints.Some? ==> f.keyPoints == r.keyPoints.value
    ensures f.successCriteria == [] <==> r.successCriteria.None? || r.successCriteria == Some([])
    ensures r.successCriteria.Some? ==> f.successCriteria == r.successCriteria.value
    ensures f.targetDate.Some? <==> r.targetDate.Some? && r.targetDate.value != 0
    ensures f.targetDate.Some? ==> f.targetDate.value <= r.targetDate.value < f.targetDate.value + DayMillis
    ensures f.targetDate.Some? ==> f.targetDate.value == DayStart(r.targetDate.value)
  {
    IssueFormData(
      r.title, r.description, r.status, r.priority, r.tags,
      if r.targetDate.Some? && r.targetDate.value != 0 then Some(DayStart(r.targetDate.value)) else None,
      r.notes, r.keyPoints.GetOr([]), r.successCriteria.GetOr([]))
  }

  // ---------------------------------------------------------------------
  // The list editors

  /** No entry twice, and every entry non-blank and already trimmed: what the add buttons produce. */
  predicate Clean(items: seq<string>) {
    && Distinct(items)
    && (forall i | 0 <= i < |items| :: items[i] != "" && Trim(items[i]) == items[i])
  }

  /** The add button takes the draft when, trimmed, it is non-blank and not yet listed. */
  predicate Accepts(items: seq<string>, draft: string) {
    Trim(draft) != "" && Trim(draft) !in items
  }

  /**
    `handleAddTag`, `handleAddKeyPoint`, `handleAddSuccessCriterion`: the
    list after the click, and the draft left in the input.
   */
  function AddEntry(items: seq<string>, draft: string): (r: (seq<string>, string))
    ensures |r.0| >= |items| && r.0[..|items|] == items
    ensures forall x :: x in r.0 <==> x in items || (Accepts(items, draft) && x == Trim(draft))
    ensures r.1 == "" || r.1 == draft
    ensures r.0 != items <==> Accepts(items, draft)
    ensures Clean(items) ==> Clean(r.0)
  {
    if Accepts(items, draft) then
      var entry := Trim(draft);
      TrimIdempotent(draft);
      assert Clean(items) ==> Clean(items + [entry]) by {
        if Clean(items) {
          AppendKeepsClean(items, entry);
        }
      }
      assert |items + [entry]| != |items|;
      (items + [entry], "")
    else
      (items, draft)
  }

  /** Appending a fresh, non-blank, trimmed entry keeps a list clean. */
  lemma AppendKeepsClean(items: seq<string>, entry: string)
    requires Clean(items) && entry != "" && Trim(entry) == entry && entry !in items
    ensures Clean(items + [entry])
  {
    var r := items + [entry];
    forall i, j | 0 <= i < j < |r| ensures r[i] != r[j] {
      if j == |items| {
        assert r[i] in items;
      }
    }
  }

  /** `handleRemoveTag` and its siblings: `items.filter(x => x !== gone)`. */
  function RemoveEntry(items: seq<string>, gone: string): (r: seq<string>)
    ensures gone !in r
    ensures forall x | x != gone :: x in r <==> x in items
    ensures Subsequence(r, items)
    ensures |r| <= |items| && (|r| == |items| <==> gone !in items)
    ensures Distinct(items) ==> Distinct(r)
  {
    if items == [] then []
    else
      var rest := RemoveEntry(items[1..], gone);
      if items[0] == gone then
        rest
      else
        var r := [items[0]] + rest;
        assert r[1..] == rest;
        assert Distinct(items) ==> Distinct(items[1..]) && items[0] !in items[1..];
        r
  }

  /** Removing an entry that is not listed changes nothing. */
  lemma {:induction false} RemoveAbsent(items: seq<string>, gone: string)
    requires gone !in items
    ensures RemoveEntry(items, gone) == items
  {
    if items != [] {
      RemoveAbsent(items[1..], gone);
      assert items == [items[0]] + items[1..];
    }
  }

  /** Removing twice is removing once. */
  lemma RemoveEntryIdempotent(items: seq<string>, gone: string)
    ensures RemoveEntry(RemoveEntry(items, gone), gone) == RemoveEntry(items, gone)
  {
    RemoveAbsent(RemoveEntry(items, gone), gone);
  }

  /** Removing the last entry's value from a list whose other entries differ from it gives the other entries. */
  lemma {:induction false} RemoveAppended(items: seq<string>, x: string)
    requires x !in items
    ensures RemoveEntry(items + [x], x) == items
  {
    if items == [] {
      assert [x][1..] == [];
    } else {
      assert (items + [x])[1..] == items[1..] + [x];
      RemoveAppended(items[1..], x);
      assert items == [items[0]] + items[1..];
    }
  }

  /** Removing an entry just added gives back the list before the add. */
  lemma AddThenRemove(items: seq<string>, draft: string)
    requires Accepts(items, draft)
    ensures RemoveEntry(AddEntry(items, draft).0, Trim(draft)) == items
  {
    RemoveAppended(items, Trim(draft));
  }

  /** The list editors keep a clean list clean. */
  lemma RemoveEntryKeepsClean(items: seq<string>, gone: string)
    requires Clean(items)
    ensures Clean(RemoveEntry(items, gone))
  {
    var r := RemoveEntry(items, gone);
    forall i | 0 <= i < |r| ensures r[i] != "" && Trim(r[i]) == r[i] {
      assert r[i] in items;
      var k :| 0 <= k < |items| && items[k] == r[i];
    }
  }

  // ---------------------------------------------------------------------
  // Submitting

  /** What a submission does: show an error and send nothing, or send one of the two mutations. */
  datatype IssueRequest =
    | Rejected(message: string)
    | CreateRequest(args: NewIssue)
    | UpdateRequest(id: Id, patch: IssuePatch)

  const RequiredMessage := "Title, Description, and Notes are required."

  /** Title, description and notes are all non-empty (no trimming: blanks pass). */
  predicate Complete(f: IssueFormData) {
    f.title != "" && f.description != "" && f.notes != ""
  }

  /** The date input holds midnight UTC of some day other than the epoch's, or nothing. */
  predicate DateShown(f: IssueFormData) {
    f.targetDate.Some? ==> f.targetDate.value != 0 && f.targetDate.value % DayMillis == 0
  }

  /** `list.length > 0 ? list : undefined`. */
  function NonEmpty(items: seq<string>): (r: Option<seq<string>>)
    ensures r.None? <==> items == []
    ensures r.Some? ==> r.value == items
  {
    if |items| > 0 then Some(items) else None
  }

  /** The payload of `handleSubmit`. */
  function PayloadOf(f: IssueFormData): NewIssue {
    NewIssue(f.title, f.description, f.status, f.priority, f.tags, f.targetDate, f.notes,
             NonEmpty(f.keyPoints), NonEmpty(f.successCriteria))
  }

  /** `updateIssue({ id, ...payload })`: the payload's undefined fields are absent from the patch. */
  function PatchOf(a: NewIssue): IssuePatch {
    IssuePatch(Some(a.title), Some(a.description), Some(a.status), Some(a.priority), Some(a.tags), a.targetDate,
               Some(a.notes), a.keyPoints, a.successCriteria)
  }

  /** Every scalar field and the tags go into an update patch as the form holds them; the target date only when set. */
  predicate SentFields(f: IssueFormData, p: IssuePatch) {
    && p.title == Some(f.title) && p.description == Some(f.description) && p.notes == Some(f.notes)
    && p.status == Some(f.status) && p.priority == Some(f.priority) && p.tags == Some(f.tags)
    && p.targetDate == f.targetDate
  }

  /**
    `handleSubmit` as written: an incomplete form is rejected, otherwise the
    payload creates an issue, or updates the one being edited; empty lists
    are sent as undefined in both cases.
   */
  function SubmitIssueForm(f: IssueFormData, editing: Option<Id>): (r: IssueRequest)
    ensures r.Rejected? <==> !Complete(f)
    ensures r.Rejected? ==> r.message == RequiredMessage
    ensures r.CreateRequest? <==> Complete(f) && editing.None?
    ensures r.UpdateRequest? ==> r.id == editing.value
    ensures r.CreateRequest? ==>
      && r.args.title == f.title && r.args.description == f.description && r.args.notes == f.notes
      && r.args.status == f.status && r.args.priority == f.priority && r.args.tags == f.tags
      && r.args.targetDate == f.targetDate
    ensures r.CreateRequest? ==>
      && (r.args.keyPoints.None? <==> f.keyPoints == []) && (r.args.keyPoints.Some? ==> r.args.keyPoints.value == f.keyPoints)
      && (r.args.successCriteria.None? <==> f.successCriteria == [])
      && (r.args.successCriteria.Some? ==> r.args.successCriteria.value == f.successCriteria)
    ensures r.UpdateRequest? ==> SentFields(f, r.patch)
    ensures r.UpdateRequest? ==>
      && (r.patch.keyPoints.None? <==> f.keyPoints == []) && (r.patch.keyPoints.Some? ==> r.patch.keyPoints.value == f.keyPoints)
      && (r.patch.successCriteria.None? <==> f.successCriteria == [])
      && (r.patch.successCriteria.Some? ==> r.patch.successCriteria.value == f.successCriteria)
  {
    if !Complete(f) then Rejected(RequiredMessage)
    else
      match editing
      case None => CreateRequest(PayloadOf(f))
      case Some(id) => UpdateRequest(id, PatchOf(PayloadOf(f)))
  }

  /** A created issue, loaded back into the form, shows exactly what was submitted. */
  lemma CreateThenLoad(db: Db, identity: Option<Identity>, f: IssueFormData)
    requires Complete(f) && DateShown(f)
    requires CreateIssue(db, identity, SubmitIssueForm(f, None).args).Ok?
    ensures var (db', id) := CreateIssue(db, identity, SubmitIssueForm(f, None).args).value;
      && GetIssueDetails(db', identity, id).Ok?
      && LoadIssue(GetIssueDetails(db', identity, id).value) == f
  {
    CreateThenGet(db, identity, SubmitIssueForm(f, None).args);
    if f.targetDate.Some? {
      DayStartUnique(f.targetDate.value, f.targetDate.value);
    }
  }

  /**
    As written, an edit that keeps some key points and success criteria, and
    sets or keeps the target date, reloads as the form that was saved.
   */
  lemma EditThenLoad(r: Issue, f: IssueFormData, id: Id)
    requires Complete(f) && DateShown(f)
    requires f.keyPoints != [] || r.keyPoints.None? || r.keyPoints == Some([])
    requires f.successCriteria != [] || r.successCriteria.None? || r.successCriteria == Some([])
    requires f.targetDate.None? ==> LoadIssue(r).targetDate.None?
    ensures LoadIssue(PatchIssue(r, SubmitIssueForm(f, Some(id)).patch)) == f
  {
    if f.targetDate.Some? {
      DayStartUnique(f.targetDate.value, f.targetDate.value);
    }
  }

  /** An issue with one key point and one success criterion. */
  function PlannedIssue(): Issue {
    Issue(0, "Transit", "Fund the bus lines", Active, Medium, [], None, "Call weekly", Some(["call"]), Some(["vote"]))
  }

  /**
    As written, removing the last key point and the last success criterion
    and saving keeps both: the empty lists are sent as undefined, the patch
    leaves the stored lists alone, and the form shows them again.
   */
  lemma EmptiedListsPersist()
    ensures var f := LoadIssue(PlannedIssue()).(keyPoints := RemoveEntry(["call"], "call"),
                                                successCriteria := RemoveEntry(["vote"], "vote"));
      && f.keyPoints == [] && f.successCriteria == []
      && SubmitIssueForm(f, Some(0)).UpdateRequest?
      && PatchIssue(PlannedIssue(), SubmitIssueForm(f, Some(0)).patch).keyPoints == Some(["call"])
      && PatchIssue(PlannedIssue(), SubmitIssueForm(f, Some(0)).patch).successCriteria == Some(["vote"])
      && LoadIssue(PatchIssue(PlannedIssue(), SubmitIssueForm(f, Some(0)).patch)) != f
  {
    var f := LoadIssue(PlannedIssue()).(keyPoints := RemoveEntry(["call"], "call"),
                                        successCriteria := RemoveEntry(["vote"], "vote"));
    assert RemoveEntry(["call"], "call") == [];
    assert RemoveEntry(["vote"], "vote") == [];
    assert LoadIssue(PatchIssue(PlannedIssue(), SubmitIssueForm(f, Some(0)).patch)).keyPoints == ["call"];
  }

  /**
    As written, on any stored issue, an edit that empties a non-empty key-point
    or success-criterion list leaves the stored list in place.
   */
  lemma EmptiedListKept(r: Issue, f: IssueFormData, id: Id)
    requires Complete(f)
    ensures f.keyPoints == [] ==>
      PatchIssue(r, SubmitIssueForm(f, Some(id)).patch).keyPoints == r.keyPoints
    ensures f.successCriteria == [] ==>
      PatchIssue(r, SubmitIssueForm(f, Some(id)).patch).successCriteria == r.successCriteria
  {
  }

  /**
    `handleSubmit` with the lists sent as they stand when editing, so that an
    emptied list replaces the stored one; creating is unchanged.
   */
  function SubmitIssueFormCorrected(f: IssueFormData, editing: Option<Id>): (r: IssueRequest)
    ensures r.Rejected? <==> !Complete(f)
    ensures r.Rejected? ==> r.message == RequiredMessage
    ensures editing.None? ==> r == SubmitIssueForm(f, editing)
    ensures r.UpdateRequest? ==> r.id == editing.value
    ensures r.UpdateRequest? ==> SentFields(f, r.patch)
    ensures r.UpdateRequest? ==>
      r.patch.keyPoints == Some(f.keyPoints) && r.patch.successCriteria == Some(f.successCriteria)
  {
    if !Complete(f) then Rejected(RequiredMessage)
    else
      match editing
      case None => CreateRequest(PayloadOf(f))
      case Some(id) =>
        UpdateRequest(id, PatchOf(PayloadOf(f)).(keyPoints := Some(f.keyPoints), successCriteria := Some(f.successCriteria)))
  }

  /**
    With the correction, any saved edit that sets or keeps the target date
    reloads as the form that was saved, emptied lists included.
   */
  lemma EditThenLoadCorrected(db: Db, identity: Option<Identity>, id: Id, f: IssueFormData)
    requires Complete(f) && DateShown(f)
    requires UpdateIssue(db, identity, id, SubmitIssueFormCorrected(f, Some(id)).patch).Ok?
    requires f.targetDate.None? ==> LoadIssue(db.issues.rows[id]).targetDate.None?
    ensures var db' := UpdateIssue(db, identity, id, SubmitIssueFormCorrected(f, Some(id)).patch).value;
      && GetIssueDetails(db', identity, id).Ok?
      && LoadIssue(GetIssueDetails(db', identity, id).value) == f
  {
    if f.targetDate.Some? {
      DayStartUnique(f.targetDate.value, f.targetDate.value);
    }
  }
}
