/** The contributor's own submissions: fetched for the signed-in user, with
    a delete control on pending items and the admin's feedback on rejected
    ones. */
module MyContent {
  import opened Common
  import opened Text
  import opened ContentRecords
  import opened ContentEdit

  /** The delete control is rendered for pending items only. */
  predicate CanDelete(c: Content) {
    c.status == Pending
  }

  /** The admin feedback line is rendered for a rejected item with notes. */
  predicate ShowsFeedback(c: Content) {
    c.status == Rejected && Truthy(c.adminNotes)
  }

  /** How the two rules follow the moderation state machine: an item an
      admin has decided on can no longer be deleted; a rejection shows
      feedback exactly when its notes were not blank; an edit hides the
      feedback, and an edited rejected item can be deleted again. */
  lemma VisibilityAfterModeration(c: Content, now: Timestamp, notes: string, v: ValidEdit)
    ensures !CanDelete(Apply(c, ApprovePatch(now)))
    ensures !CanDelete(Apply(c, RejectPatch(notes)))
    ensures ShowsFeedback(Apply(c, RejectPatch(notes))) <==> !IsBlank(notes)
    ensures !ShowsFeedback(Apply(c, EditPatch(c.status, v)))
    ensures c.status == Rejected ==> CanDelete(Apply(c, EditPatch(c.status, v)))
  {
    RejectEffect(c, notes);
    EditEffect(c, v);
  }

  class MyContentList {
    var content: seq<Content>
    var deletingId: Option<Id>

    constructor ()
      ensures content == [] && deletingId == None
    {
      content := [];
      deletingId := None;
    }

    /** The effect on `[user]`: a fetch of that contributor's rows when a
        user is signed in, and none otherwise. */
    method UserChanged(user: Option<Account>) returns (fetchFor: Option<Id>)
      ensures fetchFor.Some? <==> user.Some?
      ensures user.Some? ==> fetchFor.value == user.value.id
    {
      fetchFor := if user.Some? then Some(user.value.id) else None;
    }

    /** `fetchContent` returned rows; a failed fetch changes nothing. */
    method Fetched(rows: seq<Content>, ok: bool)
      modifies this`content
      ensures content == if ok then rows else old(content)
    {
      if ok {
        content := rows;
      }
    }

    /** `handleDelete` up to the delete. */
    method BeginDelete(id: Id) returns (req: Request)
      modifies this`deletingId
      ensures deletingId == Some(id) && req == Delete(id)
    {
      deletingId := Some(id);
      req := Delete(id);
    }

    /** The rest of `handleDelete`: on success only that id leaves the list;
        on failure the list is unchanged; `deletingId` is cleared. */
    method FinishDelete(id: Id, ok: bool)
      modifies this`content, this`deletingId
      ensures ok ==> content == WithoutId(old(content), id)
      ensures !ok ==> content == old(content)
      ensures deletingId == None
    {
      if ok {
        content := WithoutId(content, id);
      }
      deletingId := None;
    }
  }
}
