/** The user's library page: favourite content, playlists, the content of
    the selected playlist, and the create-playlist dialog. */
module LibraryPage {
  import opened Common
  import opened Text
  import opened Lists
  import opened ContentRecords
  import opened Playlists
  import Browse

  /** `handleAction`: the stored file URL is opened when it is set. */
  function OpenedUrl(c: Content): (url: Option<string>)
    ensures url.Some? <==> Truthy(c.fileUrl)
    ensures url.Some? ==> url == c.fileUrl
  {
    if Truthy(c.fileUrl) then c.fileUrl else None
  }

  /** The library opens the stored URL, never a signed one: it opens an
      item exactly when the content browser would for the same item
      without a signed URL, and the same address. */
  lemma StoredUrlAsBrowserFallback(c: Content, cover: Option<string>)
    ensures OpenedUrl(c).Some? <==> Browse.ActionOf(Browse.Listed(c, None, cover)).Some?
    ensures OpenedUrl(c).Some? ==> OpenedUrl(c).value == Browse.ActionOf(Browse.Listed(c, None, cover)).value.url
  {
    Browse.ActionSpec(Browse.Listed(c, None, cover));
  }

  class Library {
    var favoriteContent: seq<Content>
    var selectedPlaylist: Option<Playlist>
    var playlistContent: seq<Content>
    var newPlaylistName: string
    var createDialogOpen: bool

    constructor ()
      ensures favoriteContent == [] && selectedPlaylist == None && playlistContent == []
      ensures newPlaylistName == "" && !createDialogOpen
    {
      favoriteContent := [];
      selectedPlaylist := None;
      playlistContent := [];
      newPlaylistName := "";
      createDialogOpen := false;
    }

    /** The effect on `[favorites]`: an empty set empties the favourite
        content without a fetch; otherwise the content is fetched. */
    method FavoritesChanged(favorites: set<Id>) returns (fetch: bool)
      modifies this`favoriteContent
      ensures fetch <==> |favorites| > 0
      ensures !fetch ==> favoriteContent == []
      ensures fetch ==> favoriteContent == old(favoriteContent)
    {
      if |favorites| > 0 {
        return true;
      }
      favoriteContent := [];
      fetch := false;
    }

    /** `handlePlaylistSelect`: the playlist is selected and its content
        fetched. */
    method SelectPlaylist(p: Playlist) returns (fetchFor: Id)
      modifies this`selectedPlaylist
      ensures selectedPlaylist == Some(p) && fetchFor == p.id
    {
      selectedPlaylist := Some(p);
      fetchFor := p.id;
    }

    /** `handleCreatePlaylist`: a blank name does nothing; otherwise the
        trimmed name is passed to `createPlaylist` and, whatever it
        returned, the name is cleared and the dialog closed. */
    method CreatePlaylist() returns (create: Option<string>)
      modifies this`newPlaylistName, this`createDialogOpen
      ensures IsBlank(old(newPlaylistName)) ==>
        create == None && newPlaylistName == old(newPlaylistName) && createDialogOpen == old(createDialogOpen)
      ensures !IsBlank(old(newPlaylistName)) ==>
        create == Some(Trim(old(newPlaylistName))) && newPlaylistName == "" && !createDialogOpen
      ensures create.Some? ==> create.value != "" && IsTrimmed(create.value)
    {
      if IsBlank(newPlaylistName) {
        return None;
      }
      TrimIsSlice(newPlaylistName);
      create := Some(Trim(newPlaylistName));
      newPlaylistName := "";
      createDialogOpen := false;
    }

    /** `handleRemoveFromPlaylist`: without a selected playlist nothing
        happens; otherwise the removal is requested for the selected
        playlist, and the content leaves the shown list whatever the
        outcome. */
    method RemoveFromPlaylist(contentId: Id) returns (remove: Option<(Id, Id)>)
      modifies this`playlistContent
      ensures selectedPlaylist.None? ==> remove == None && playlistContent == old(playlistContent)
      ensures selectedPlaylist.Some? ==>
        remove == Some((selectedPlaylist.value.id, contentId))
        && playlistContent == WithoutId(old(playlistContent), contentId)
    {
      if selectedPlaylist.None? {
        return None;
      }
      remove := Some((selectedPlaylist.value.id, contentId));
      playlistContent := WithoutId(playlistContent, contentId);
    }

    /** The delete button of a playlist: `deletePlaylist` is called, and
        when it is the selected playlist the selection and the shown
        content are cleared; another playlist's deletion keeps them. */
    method DeletePlaylist(p: Playlist) returns (delete: Id)
      modifies this`selectedPlaylist, this`playlistContent
      ensures delete == p.id
      ensures old(selectedPlaylist).Some? && old(selectedPlaylist).value.id == p.id ==>
        selectedPlaylist == None && playlistContent == []
      ensures !(old(selectedPlaylist).Some? && old(selectedPlaylist).value.id == p.id) ==>
        selectedPlaylist == old(selectedPlaylist) && playlistContent == old(playlistContent)
    {
      delete := p.id;
      if selectedPlaylist.Some? && selectedPlaylist.value.id == p.id {
        selectedPlaylist := None;
        playlistContent := [];
      }
    }
  }
}
