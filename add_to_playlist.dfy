/** The dialog that adds one content item to an existing playlist or to a
    playlist created on the spot. */
module PlaylistPicker {
  import opened Common
  import opened Text
  import opened Playlists

  class AddToPlaylistDialog {
    const contentId: Id
    var newPlaylistName: string
    var isCreating: bool
    /** The visibility the parent controls through `onOpenChange`. */
    var open: bool

    constructor (contentId: Id)
      ensures this.contentId == contentId && newPlaylistName == "" && !isCreating && open
    {
      this.contentId := contentId;
      newPlaylistName := "";
      isCreating := false;
      open := true;
    }

    /** `handleAddToPlaylist`: the item is added to the chosen playlist and
        the dialog closes whatever the outcome, a duplicate included. */
    method AddToExisting(playlistId: Id) returns (add: (Id, Id))
      modifies this`open
      ensures add == (playlistId, contentId) && !open
    {
      add := (playlistId, contentId);
      open := false;
    }

    /** `handleCreateAndAdd` up to `createPlaylist`: a blank name does
        nothing; otherwise the trimmed name is sent and `isCreating` is
        set. */
    method BeginCreate() returns (create: Option<string>)
      modifies this`isCreating
      ensures IsBlank(newPlaylistName) ==> create == None && isCreating == old(isCreating)
      ensures !IsBlank(newPlaylistName) ==> create == Some(Trim(newPlaylistName)) && isCreating
      ensures create.Some? ==> create.value != "" && IsTrimmed(create.value)
    {
      if IsBlank(newPlaylistName) {
        return None;
      }
      TrimIsSlice(newPlaylistName);
      isCreating := true;
      create := Some(Trim(newPlaylistName));
    }

    /** The rest of `handleCreateAndAdd`, given what `createPlaylist`
        returned: a created playlist receives the item, then the name is
        cleared and the dialog closes; when creation failed the dialog stays
        open with its name. `isCreating` is cleared on both paths. */
    method FinishCreate(created: Option<Playlist>) returns (add: Option<(Id, Id)>)
      modifies this`newPlaylistName, this`open, this`isCreating
      ensures created.Some? ==>
        add == Some((created.value.id, contentId)) && newPlaylistName == "" && !open
      ensures created.None? ==>
        add == None && newPlaylistName == old(newPlaylistName) && open == old(open)
      ensures !isCreating
    {
      add := None;
      if created.Some? {
        add := Some((created.value.id, contentId));
        newPlaylistName := "";
        open := false;
      }
      isCreating := false;
    }
  }
}
