/** The signed-in user's playlists with their item counts, which each
    handler patches locally after its write succeeds. */
module Playlists {
  import opened Common
  import opened Lists

  /** A playlist row with the number of items. */
  datatype Playlist = Playlist(id: Id, name: string, description: Option<string>, itemCount: nat)

  /** The columns of a new `playlists` row. */
  datatype NewPlaylist = NewPlaylist(userId: Id, name: string, description: Option<string>)

  /** The local list after adding one item to playlist `id`. */
  function Incremented(ps: seq<Playlist>, id: Id): (r: seq<Playlist>)
    ensures |r| == |ps|
    ensures forall i :: 0 <= i < |ps| ==>
      r[i] == if ps[i].id == id then ps[i].(itemCount := ps[i].itemCount + 1) else ps[i]
  {
    seq(|ps|, i requires 0 <= i < |ps| =>
      if ps[i].id == id then ps[i].(itemCount := ps[i].itemCount + 1) else ps[i])
  }

  /** `Math.max(0, n - 1)`. */
  function Decrease(n: nat): (r: nat)
    ensures r == if n == 0 then 0 else n - 1
  {
    if n == 0 then 0 else n - 1
  }

  /** The local list after removing one item from playlist `id`. */
  function Decremented(ps: seq<Playlist>, id: Id): (r: seq<Playlist>)
    ensures |r| == |ps|
    ensures forall i :: 0 <= i < |ps| ==>
      r[i] == if ps[i].id == id then ps[i].(itemCount := Decrease(ps[i].itemCount)) else ps[i]
  {
    seq(|ps|, i requires 0 <= i < |ps| =>
      if ps[i].id == id then ps[i].(itemCount := Decrease(ps[i].itemCount)) else ps[i])
  }

  /** Adding then removing an item gives back the counts; removing then
      adding does too when the playlist had an item, while removing from
      an empty playlist keeps it at zero; neither changes which playlists
      there are, their order or their names. */
  lemma RemoveUndoesAdd(ps: seq<Playlist>, id: Id)
    ensures Decremented(Incremented(ps, id), id) == ps
    ensures (forall i :: 0 <= i < |ps| && ps[i].id == id ==> ps[i].itemCount > 0) ==>
      Incremented(Decremented(ps, id), id) == ps
    ensures forall i :: 0 <= i < |ps| && ps[i].id == id && ps[i].itemCount == 0 ==>
      Decremented(ps, id)[i] == ps[i]
    ensures forall i :: 0 <= i < |ps| ==>
      && Incremented(ps, id)[i].id == ps[i].id && Incremented(ps, id)[i].name == ps[i].name
      && Decremented(ps, id)[i].id == ps[i].id && Decremented(ps, id)[i].name == ps[i].name
  {
    var r := Decremented(Incremented(ps, id), id);
    assert forall i :: 0 <= i < |ps| ==> r[i] == ps[i];
    if forall i :: 0 <= i < |ps| && ps[i].id == id ==> ps[i].itemCount > 0 {
      var q := Incremented(Decremented(ps, id), id);
      assert forall i :: 0 <= i < |ps| ==> q[i] == ps[i];
    }
  }

  /** The local list after deleting playlist `id`. */
  function WithoutPlaylist(ps: seq<Playlist>, id: Id): seq<Playlist> {
    Filter(ps, (p: Playlist) => p.id != id)
  }

  /** Deleting removes exactly the playlist with that id and keeps the
      others in order. */
  lemma WithoutPlaylistSpec(ps: seq<Playlist>, id: Id, p: Playlist)
    ensures IsSubsequence(WithoutPlaylist(ps, id), ps)
    ensures p in WithoutPlaylist(ps, id) <==> p in ps && p.id != id
  {
    FilterIsSubsequence(ps, (p: Playlist) => p.id != id);
    FilterMembership(ps, (p: Playlist) => p.id != id, p);
  }

  /** How the item insert of `addToPlaylist` ended. */
  datatype AddOutcome = Added | Duplicate | AddFailed

  /** The toast `addToPlaylist` shows. */
  datatype AddNotice = AddedNotice | AlreadyInPlaylist | AddError

  class PlaylistStore {
    var playlists: seq<Playlist>
    var loading: bool

    constructor ()
      ensures playlists == [] && loading
    {
      playlists := [];
      loading := true;
    }

    /** The effect on `[user]`: a signed-in user's playlists are fetched;
        signing out empties the list. */
    method UserChanged(user: Option<Account>) returns (fetchFor: Option<Id>)
      modifies this`playlists, this`loading
      ensures user.Some? ==> fetchFor == Some(user.value.id) && playlists == old(playlists) && loading == old(loading)
      ensures user.None? ==> fetchFor == None && playlists == [] && !loading
    {
      if user.Some? {
        return Some(user.value.id);
      }
      playlists := [];
      loading := false;
      fetchFor := None;
    }

    /** `fetchPlaylists` finished: on success the list is the fetched rows
        with their counts. */
    method Fetched(ok: bool, rows: seq<Playlist>)
      modifies this`playlists, this`loading
      ensures playlists == if ok then rows else old(playlists)
      ensures !loading
    {
      if ok {
        playlists := rows;
      }
      loading := false;
    }

    /** `createPlaylist`; `created` is the row the insert returned, or
        `None` when it failed. Without a user nothing is sent and the
        result is null; otherwise the new playlist, with count 0, is put
        first. */
    method Create(user: Option<Account>, name: string, description: string, created: Option<Playlist>)
      returns (req: Option<NewPlaylist>, result: Option<Playlist>)
      modifies this`playlists
      ensures user.None? ==> req == None && result == None && playlists == old(playlists)
      ensures user.Some? ==> req == Some(NewPlaylist(user.value.id, name, EmptyToNull(description)))
      ensures user.Some? && created.Some? ==>
        result == created && playlists == [created.value.(itemCount := 0)] + old(playlists)
      ensures created.None? ==> result == None && playlists == old(playlists)
    {
      if user.None? {
        return None, None;
      }
      req := Some(NewPlaylist(user.value.id, name, EmptyToNull(description)));
      result := created;
      if created.Some? {
        playlists := [created.value.(itemCount := 0)] + playlists;
      }
    }

    /** `deletePlaylist`: on success exactly that playlist leaves. */
    method Delete(id: Id, ok: bool)
      modifies this`playlists
      ensures playlists == if ok then WithoutPlaylist(old(playlists), id) else old(playlists)
    {
      if ok {
        playlists := WithoutPlaylist(playlists, id);
      }
    }

    /** `addToPlaylist`: a new item raises the count of that playlist only;
        a duplicate (error 23505) changes nothing and is reported as
        already present, not as an error. */
    method Add(playlistId: Id, outcome: AddOutcome) returns (notice: AddNotice)
      modifies this`playlists
      ensures outcome == Added ==> playlists == Incremented(old(playlists), playlistId) && notice == AddedNotice
      ensures outcome == Duplicate ==> playlists == old(playlists) && notice == AlreadyInPlaylist
      ensures outcome == AddFailed ==> playlists == old(playlists) && notice == AddError
    {
      match outcome
      case Added =>
        playlists := Incremented(playlists, playlistId);
        notice := AddedNotice;
      case Duplicate =>
        notice := AlreadyInPlaylist;
      case AddFailed =>
        notice := AddError;
    }

    /** `removeFromPlaylist`: on success the count of that playlist drops
        by one, never below zero. */
    method Remove(playlistId: Id, ok: bool)
      modifies this`playlists
      ensures playlists == if ok then Decremented(old(playlists), playlistId) else old(playlists)
    {
      if ok {
        playlists := Decremented(playlists, playlistId);
      }
    }
  }
}
