/** The admin's queue of pending content: approve an item, or open the
    reject dialog, type notes and reject it. A handler that succeeds drops
    the item from the local queue; one that fails leaves the queue alone. */
module PendingContent {
  import opened Common
  import opened ContentRecords

  class PendingContentList {
    var content: seq<Content>
    var actionLoading: Option<Id>
    var rejectDialogOpen: bool
    var selectedContent: Option<Content>
    var adminNotes: string

    /** The list after `fetchPendingContent`, with no action running. */
    constructor (fetched: seq<Content>)
      ensures content == fetched && actionLoading == None
      ensures !rejectDialogOpen && selectedContent == None && adminNotes == ""
    {
      content := fetched;
      actionLoading := None;
      rejectDialogOpen := false;
      selectedContent := None;
      adminNotes := "";
    }

    /** `handleApprove` up to the update: the item's id is marked as busy and
        the approval is sent for that id. */
    method BeginApprove(item: Content, now: Timestamp) returns (req: Request)
      modifies this`actionLoading
      ensures actionLoading == Some(item.id)
      ensures req == Update(item.id, ApprovePatch(now))
    {
      actionLoading := Some(item.id);
      req := Update(item.id, ApprovePatch(now));
    }

    /** The rest of `handleApprove`: on success exactly the rows with the
        item's id leave the queue; the busy mark is cleared either way. */
    method FinishApprove(item: Content, ok: bool)
      modifies this`content, this`actionLoading
      ensures ok ==> content == WithoutId(old(content), item.id)
      ensures !ok ==> content == old(content)
      ensures actionLoading == None
    {
      if ok {
        content := WithoutId(content, item.id);
      }
      actionLoading := None;
    }

    /** `openRejectDialog`: the item is selected, the notes start empty and
        the dialog opens. */
    method OpenRejectDialog(item: Content)
      modifies this`selectedContent, this`adminNotes, this`rejectDialogOpen
      ensures selectedContent == Some(item) && adminNotes == "" && rejectDialogOpen
    {
      selectedContent := Some(item);
      adminNotes := "";
      rejectDialogOpen := true;
    }

    /** `handleReject` up to the update: without a selected item nothing
        happens; otherwise its id is marked busy and the rejection with the
        current notes is sent. */
    method BeginReject() returns (req: Option<Request>)
      modifies this`actionLoading
      ensures selectedContent.None? ==> req == None && actionLoading == old(actionLoading)
      ensures selectedContent.Some? ==>
        req == Some(Update(selectedContent.value.id, RejectPatch(adminNotes)))
        && actionLoading == Some(selectedContent.value.id)
    {
      if selectedContent.None? {
        return None;
      }
      var target := selectedContent.value;
      actionLoading := Some(target.id);
      req := Some(Update(target.id, RejectPatch(adminNotes)));
    }

    /** The rest of `handleReject`, for the item that was selected when it
        began: on success that item leaves the queue, the dialog closes and
        the selection is cleared; on failure they are kept. */
    method FinishReject(target: Content, ok: bool)
      modifies this`content, this`rejectDialogOpen, this`selectedContent, this`actionLoading
      ensures ok ==>
        content == WithoutId(old(content), target.id) && !rejectDialogOpen && selectedContent == None
      ensures !ok ==>
        content == old(content) && rejectDialogOpen == old(rejectDialogOpen)
        && selectedContent == old(selectedContent)
      ensures actionLoading == None
    {
      if ok {
        content := WithoutId(content, target.id);
        rejectDialogOpen := false;
        selectedContent := None;
      }
      actionLoading := None;
    }
  }
}
