/** The admin's user list: the role rows joined with the profile rows, and
    an in-place role change per user. */
module UserManagement {
  import opened Common

  /** One `user_roles` row, newest first as fetched. */
  datatype RoleRow = RoleRow(userId: Id, role: Role, createdAt: Timestamp)

  /** One `profiles` row (`user_id, full_name`). */
  datatype Profile = Profile(userId: Id, fullName: Option<string>)

  /** `UserWithRole`: a role row and the profile found for it. */
  datatype UserWithRole = UserWithRole(userId: Id, role: Role, createdAt: Timestamp, profile: Option<Profile>)

  /** `profiles.find(p => p.user_id === id) || null`. */
  function FindProfile(profiles: seq<Profile>, id: Id): (r: Option<Profile>)
    ensures r.Some? ==> r.value in profiles && r.value.userId == id
  {
    if profiles == [] then None
    else if profiles[0].userId == id then Some(profiles[0])
    else FindProfile(profiles[1..], id)
  }

  /** The profile found is the first one with that user id, and there is
      none exactly when no profile has it. */
  lemma {:induction false} FindProfileSpec(profiles: seq<Profile>, id: Id)
    ensures FindProfile(profiles, id).None? <==> forall i :: 0 <= i < |profiles| ==> profiles[i].userId != id
    ensures FindProfile(profiles, id).Some? ==>
      exists i :: 0 <= i < |profiles| && profiles[i] == FindProfile(profiles, id).value
        && forall j :: 0 <= j < i ==> profiles[j].userId != id
  {
    if profiles != [] && profiles[0].userId != id {
      FindProfileSpec(profiles[1..], id);
      var r := FindProfile(profiles, id);
      if r.Some? {
        var i :| 0 <= i < |profiles[1..]| && profiles[1..][i] == r.value
          && forall j :: 0 <= j < i ==> profiles[1..][j].userId != id;
        assert profiles[i + 1] == r.value;
        assert forall j :: 0 <= j < i + 1 ==> profiles[j].userId != id by {
          forall j | 0 <= j < i + 1 ensures profiles[j].userId != id {
            if j > 0 {
              assert profiles[j] == profiles[1..][j - 1];
            }
          }
        }
      }
    } else if profiles != [] {
      assert profiles[0] == FindProfile(profiles, id).value;
    }
  }

  /** `roles?.map(r => r.user_id) || []`: the ids the profile query asks
      for. */
  function UserIds(roles: Option<seq<RoleRow>>): (ids: seq<Id>)
    ensures |ids| == Length(roles)
    ensures forall i :: 0 <= i < |ids| ==> ids[i] == RowsOf(roles)[i].userId
  {
    var rs := RowsOf(roles);
    seq(|rs|, i requires 0 <= i < |rs| => rs[i].userId)
  }

  /** `usersWithProfiles`: each role row with its profile, a null profile
      list giving every row a null profile. */
  function Join(roles: Option<seq<RoleRow>>, profiles: Option<seq<Profile>>): seq<UserWithRole> {
    var rs := RowsOf(roles);
    seq(|rs|, i requires 0 <= i < |rs| =>
      UserWithRole(rs[i].userId, rs[i].role, rs[i].createdAt, FindProfile(RowsOf(profiles), rs[i].userId)))
  }

  /** The join keeps the role rows, their number and their order, adding to
      each the first profile with its user id, or none. */
  lemma JoinSpec(roles: Option<seq<RoleRow>>, profiles: Option<seq<Profile>>)
    ensures |Join(roles, profiles)| == Length(roles)
    ensures forall i :: 0 <= i < Length(roles) ==>
      var u := Join(roles, profiles)[i];
      var r := RowsOf(roles)[i];
      && u.userId == r.userId && u.role == r.role && u.createdAt == r.createdAt
      && u.profile == FindProfile(RowsOf(profiles), r.userId)
      && (u.profile.Some? ==> u.profile.value in RowsOf(profiles) && u.profile.value.userId == r.userId)
    ensures profiles.None? ==> forall i :: 0 <= i < Length(roles) ==> Join(roles, profiles)[i].profile.None?
  {
  }

  /** `user.profile?.full_name || 'Unnamed User'`. */
  function DisplayName(u: UserWithRole): (name: string)
    ensures name != ""
    ensures u.profile.Some? && Truthy(u.profile.value.fullName) ==> name == u.profile.value.fullName.value
  {
    if u.profile.Some? && Truthy(u.profile.value.fullName) then u.profile.value.fullName.value else "Unnamed User"
  }

  /** The role choices offered in every row's selector. */
  const RoleOptions: seq<Role> := [User, Contributor, Admin]

  /** Any role can be chosen for any user, an admin as well. */
  lemma EveryRoleOffered(r: Role)
    ensures r in RoleOptions
  {
  }

  /** `prev.map(u => u.user_id === userId ? { ...u, role: newRole } : u)`. */
  function WithRole(users: seq<UserWithRole>, id: Id, role: Role): seq<UserWithRole> {
    seq(|users|, i requires 0 <= i < |users| => if users[i].userId == id then users[i].(role := role) else users[i])
  }

  /** A role change keeps the list's length and order, gives every entry of
      that user the new role and changes nothing else. */
  lemma WithRoleSpec(users: seq<UserWithRole>, id: Id, role: Role)
    ensures |WithRole(users, id, role)| == |users|
    ensures forall i :: 0 <= i < |users| ==>
      (users[i].userId == id ==> WithRole(users, id, role)[i] == users[i].(role := role))
      && (users[i].userId != id ==> WithRole(users, id, role)[i] == users[i])
    ensures WithRole(WithRole(users, id, role), id, role) == WithRole(users, id, role)
  {
  }

  /** The update `handleRoleChange` sends. */
  datatype RoleUpdate = RoleUpdate(userId: Id, role: Role)

  class UserList {
    var users: seq<UserWithRole>
    var loading: bool
    var updatingId: Option<Id>

    constructor ()
      ensures users == [] && loading && updatingId == None
    {
      users := [];
      loading := true;
      updatingId := None;
    }

    /** `fetchUsers` once its queries have answered: when neither failed
        the list becomes the join; when one failed the list is kept (an
        error toast is shown). Loading ends either way. */
    method Fetched(rolesFailed: bool, roles: Option<seq<RoleRow>>, profilesFailed: bool, profiles: Option<seq<Profile>>)
      modifies this`users, this`loading
      ensures !rolesFailed && !profilesFailed ==> users == Join(roles, profiles)
      ensures rolesFailed || profilesFailed ==> users == old(users)
      ensures !loading
    {
      if !rolesFailed && !profilesFailed {
        users := Join(roles, profiles);
      }
      loading := false;
    }

    /** The selector of a user is disabled while that user's change runs. */
    predicate SelectorDisabled(u: UserWithRole)
      reads this
    {
      updatingId == Some(u.userId)
    }

    /** `handleRoleChange` up to the update: that user is marked busy. */
    method BeginRoleChange(id: Id, role: Role) returns (req: RoleUpdate)
      modifies this`updatingId
      ensures updatingId == Some(id) && req == RoleUpdate(id, role)
    {
      updatingId := Some(id);
      req := RoleUpdate(id, role);
    }

    /** The rest of `handleRoleChange`: on success only that user's role
        changes in the list; on failure the list is unchanged; nobody is
        busy afterwards. */
    method FinishRoleChange(id: Id, role: Role, ok: bool)
      modifies this`users, this`updatingId
      ensures ok ==> users == WithRole(old(users), id, role)
      ensures !ok ==> users == old(users)
      ensures updatingId == None
    {
      if ok {
        users := WithRole(users, id, role);
      }
      updatingId := None;
    }
  }
}
