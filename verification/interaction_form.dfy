/**
  The interaction form: its state, the "what worked" list editor, and the
  request a submission sends. The select boxes hold an id or nothing.
 */
module InteractionForm {
  import opened Results
  import opened Store
  import opened Schema
  import opened Text
  import opened Access
  import opened Interactions

  /** The form's state, with the message feedback's three fields flattened. */
  datatype InteractionFormData = InteractionFormData(
    representativeId: Option<Id>, issueId: Option<Id>, kind: InteractionType, date: int, notes: string,
    outcome: Outcome, followUpNeeded: bool, originalDraft: string, finalVersion: string, whatWorked: seq<string>)

  /**
    The form's initial state: the interaction being edited, with missing
    feedback fields empty, or a call logged now with a neutral outcome.
   */
  function LoadInteraction(r: Option<Interaction>, now: int): (f: InteractionFormData)
    ensures r.None? ==>
      && f.representativeId.None? && f.issueId.None? && f.kind == InteractionType.Call && f.date == now
      && f.notes == "" && f.outcome == Neutral && !f.followUpNeeded
      && f.originalDraft == "" && f.finalVersion == "" && f.whatWorked == []
    ensures r.Some? ==>
      && f.representativeId == Some(r.value.representativeId) && f.issueId == r.value.issueId
      && f.kind == r.value.kind && f.date == r.value.date && f.notes == r.value.notes
      && f.outcome == r.value.outcome && f.followUpNeeded == r.value.followUpNeeded
    ensures r.Some? ==> var feedback := r.value.messageFeedback;
      && f.originalDraft == (if feedback.Some? then feedback.value.originalDraft.GetOr("") else "")
      && f.finalVersion == (if feedback.Some? then feedback.value.finalVersion.GetOr("") else "")
      && f.whatWorked == (if feedback.Some? then feedback.value.whatWorked.GetOr([]) else [])
  {
    match r
    case None => InteractionFormData(None, None, InteractionType.Call, now, "", Neutral, false, "", "", [])
    case Some(i) =>
      var feedback := i.messageFeedback.GetOr(MessageFeedback(None, None, None));
      InteractionFormData(
        Some(i.representativeId), i.issueId, i.kind, i.date, i.notes, i.outcome, i.followUpNeeded,
        feedback.originalDraft.GetOr(""), feedback.finalVersion.GetOr(""), feedback.whatWorked.GetOr([]))
  }

  // ---------------------------------------------------------------------
  // The "what worked" list

  /** Every entry is non-blank and already trimmed: what the add button produces. */
  predicate Trimmed(items: seq<string>) {
    forall i | 0 <= i < |items| :: items[i] != "" && Trim(items[i]) == items[i]
  }

  /**
    `handleAddWhatWorked`: a non-blank draft is appended trimmed, repeats
    allowed, and the input is cleared; a blank draft changes nothing.
   */
  function AddWhatWorked(items: seq<string>, draft: string): (r: (seq<string>, string))
    ensures |r.0| == |items| + (if Trim(draft) == "" then 0 else 1) && r.0[..|items|] == items
    ensures |r.0| > |items| ==> r.0[|items|] == Trim(draft) && r.1 == ""
    ensures |r.0| == |items| ==> r.1 == draft
    ensures Trimmed(items) ==> Trimmed(r.0)
  {
    if Trim(draft) != "" then
      TrimIdempotent(draft);
      (items + [Trim(draft)], "")
    else
      (items, draft)
  }

  /**
    `handleRemoveWhatWorked`: `items.filter((_, i) => i !== index)`; the
    entry at `index` goes and the others keep their order.
   */
  function RemoveAt(items: seq<string>, index: int): (r: seq<string>)
    ensures 0 <= index < |items| ==>
      |r| == |items| - 1 && forall i | 0 <= i < |r| :: r[i] == items[if i < index then i else i + 1]
    ensures !(0 <= index < |items|) ==> r == items
  {
    if items == [] then []
    else
      var last := |items| - 1;
      RemoveAt(items[..last], index) + (if index == last then [] else [items[last]])
  }

  /** Removing the entry just added gives back the list before the add. */
  lemma AddThenRemoveAt(items: seq<string>, draft: string)
    requires Trim(draft) != ""
    ensures RemoveAt(AddWhatWorked(items, draft).0, |items|) == items
  {
  }

  /** Removing an entry keeps the list trimmed. */
  lemma RemoveAtKeepsTrimmed(items: seq<string>, index: int)
    requires Trimmed(items)
    ensures Trimmed(RemoveAt(items, index))
  {
    var r := RemoveAt(items, index);
    forall i | 0 <= i < |r| ensures r[i] != "" && Trim(r[i]) == r[i] {
      if 0 <= index < |items| {
        var k := if i < index then i else i + 1;
        assert r[i] == items[k];
      }
    }
  }

  // ---------------------------------------------------------------------
  // Submitting

  /** What a submission does: show an error and send nothing, or send one of the two mutations. */
  datatype InteractionRequest =
    | Rejected(message: string)
    | LogRequest(args: NewInteraction)
    | UpdateRequest(id: Id, patch: InteractionPatch)

  const RepresentativeRequired := "Representative is required."

  /** The feedback is always sent, all three fields present. */
  function FeedbackOf(f: InteractionFormData): MessageFeedback {
    MessageFeedback(Some(f.originalDraft), Some(f.finalVersion), Some(f.whatWorked))
  }

  /**
    `handleSubmit`: an edit sends the common payload as a patch, with no
    representative and an empty issue selection as undefined; a new entry
    needs a representative.
   */
  function SubmitInteractionForm(f: InteractionFormData, editing: Option<Id>): (r: InteractionRequest)
    ensures r.Rejected? <==> editing.None? && f.representativeId.None?
    ensures r.Rejected? ==> r.message == RepresentativeRequired
    ensures r.UpdateRequest? <==> editing.Some?
    ensures r.UpdateRequest? ==> r.id == editing.value && r.patch.issueId == f.issueId
    ensures r.LogRequest? ==>
      && Some(r.args.representativeId) == f.representativeId && r.args.issueId == f.issueId
      && r.args.messageFeedback == Some(FeedbackOf(f))
  {
    match editing
    case Some(id) =>
      UpdateRequest(id, InteractionPatch(f.issueId, Some(f.kind), Some(f.date), Some(f.notes), Some(f.outcome),
                                         Some(f.followUpNeeded), Some(FeedbackOf(f))))
    case None =>
      if f.representativeId.None? then Rejected(RepresentativeRequired)
      else
        LogRequest(NewInteraction(f.representativeId.value, f.issueId, f.kind, f.date, f.notes, f.outcome,
                                  f.followUpNeeded, Some(FeedbackOf(f))))
  }

  /** A logged interaction, loaded back into the form, shows exactly what was submitted. */
  lemma LogThenLoad(db: Db, identity: Option<Identity>, f: InteractionFormData, now: int)
    requires f.representativeId.Some?
    requires LogInteraction(db, identity, SubmitInteractionForm(f, None).args).Ok?
    ensures var (db', id) := LogInteraction(db, identity, SubmitInteractionForm(f, None).args).value;
      && GetInteractionDetails(db', identity, id).Ok?
      && LoadInteraction(Some(GetInteractionDetails(db', identity, id).value), now) == f
  {
    LogThenGet(db, identity, SubmitInteractionForm(f, None).args);
  }

  /**
    An edit never moves the interaction to another representative, whatever
    the select shows, and an emptied issue selection keeps the stored link.
   */
  lemma EditKeepsRepresentativeAndLink(r: Interaction, f: InteractionFormData, id: Id)
    ensures var p := SubmitInteractionForm(f, Some(id)).patch;
      && PatchInteraction(r, p).representativeId == r.representativeId
      && (f.issueId.None? ==> PatchInteraction(r, p).issueId == r.issueId)
      && (f.issueId.Some? ==> PatchInteraction(r, p).issueId == f.issueId)
  {
  }

  /**
    A saved edit that leaves the representative as loaded, and selects an
    issue or had none, reloads as the form that was saved.
   */
  lemma EditThenLoad(db: Db, identity: Option<Identity>, id: Id, f: InteractionFormData, now: int)
    requires UpdateInteraction(db, identity, id, SubmitInteractionForm(f, Some(id)).patch).Ok?
    requires f.representativeId == Some(db.interactions.rows[id].representativeId)
    requires f.issueId.Some? || db.interactions.rows[id].issueId.None?
    ensures var db' := UpdateInteraction(db, identity, id, SubmitInteractionForm(f, Some(id)).patch).value;
      && GetInteractionDetails(db', identity, id).Ok?
      && LoadInteraction(Some(GetInteractionDetails(db', identity, id).value), now) == f
  {
  }
}
