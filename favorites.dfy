/** The signed-in user's favourite content ids, kept as a set that each
    toggle flips for one id once the database agrees. */
module Favorites {
  import opened Common

  /** The set after flipping the membership of `x`. */
  function Toggled(s: set<Id>, x: Id): set<Id> {
    if x in s then s - {x} else s + {x}
  }

  /** A toggle flips exactly the toggled id: a member leaves, a non-member
      joins, every other id keeps its membership. */
  lemma ToggledSpec(s: set<Id>, x: Id, y: Id)
    ensures x in s ==> x !in Toggled(s, x)
    ensures x !in s ==> x in Toggled(s, x)
    ensures y != x ==> (y in Toggled(s, x) <==> y in s)
  {
  }

  /** Toggling the same id twice gives back the original set. */
  lemma ToggleTwice(s: set<Id>, x: Id)
    ensures Toggled(Toggled(s, x), x) == s
  {
    if x in s {
      assert s - {x} + {x} == s;
    } else {
      assert s + {x} - {x} == s;
    }
  }

  /** The write a toggle sends. */
  datatype FavoriteRequest = RemoveFavorite(userId: Id, contentId: Id) | AddFavorite(userId: Id, contentId: Id)

  class FavoriteSet {
    var favorites: set<Id>
    var loading: bool

    constructor ()
      ensures favorites == {} && loading
    {
      favorites := {};
      loading := true;
    }

    /** `isFavorite`. */
    predicate IsFavorite(contentId: Id)
      reads this
    {
      contentId in favorites
    }

    /** The effect on `[user]`: a signed-in user's favourites are fetched;
        signing out empties the set. */
    method UserChanged(user: Option<Account>) returns (fetchFor: Option<Id>)
      modifies this`favorites, this`loading
      ensures user.Some? ==> fetchFor == Some(user.value.id) && favorites == old(favorites) && loading == old(loading)
      ensures user.None? ==> fetchFor == None && favorites == {} && !loading
    {
      if user.Some? {
        return Some(user.value.id);
      }
      favorites := {};
      loading := false;
      fetchFor := None;
    }

    /** `fetchFavorites` finished: on success the set is exactly the
        returned ids. */
    method Fetched(ok: bool, ids: seq<Id>)
      modifies this`favorites, this`loading
      ensures ok ==> forall x :: x in favorites <==> x in ids
      ensures !ok ==> favorites == old(favorites)
      ensures !loading
    {
      if ok {
        favorites := set x | x in ids;
      }
      loading := false;
    }

    /** `toggleFavorite`, with the outcome of its write: without a user
        nothing is sent and the set is kept (a sign-in error is shown); a
        member is deleted and a non-member inserted; the set changes only
        when the write succeeded. */
    method Toggle(user: Option<Account>, contentId: Id, ok: bool) returns (req: Option<FavoriteRequest>)
      modifies this`favorites
      ensures user.None? ==> req == None && favorites == old(favorites)
      ensures user.Some? ==> req == Some(
        if contentId in old(favorites) then RemoveFavorite(user.value.id, contentId)
        else AddFavorite(user.value.id, contentId))
      ensures user.Some? && ok ==> favorites == Toggled(old(favorites), contentId)
      ensures !ok ==> favorites == old(favorites)
    {
      if user.None? {
        return None;
      }
      var uid := user.value.id;
      if contentId in favorites {
        req := Some(RemoveFavorite(uid, contentId));
        if ok {
          favorites := favorites - {contentId};
        }
      } else {
        req := Some(AddFavorite(uid, contentId));
        if ok {
          favorites := favorites + {contentId};
        }
      }
    }
  }
}
