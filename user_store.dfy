/**
 * The client's user store: the signed-in identity, its CRM profile, a
 * loading flag, and the id-to-name map used to display user names. The
 * results of the store's network calls are parameters.
 */
module UserStore {
  import opened Wrappers
  import opened Documents

  /** The identity provider's signed-in user, as far as the store uses it. */
  datatype AuthUser = AuthUser(uid: string)

  /** One entry of the `/users` listing, as the store reads it. */
  datatype UserEntry = UserEntry(id: string, name: string)

  /** A request that threw. */
  datatype RequestFailed = RequestFailed

  /** The map `forEach(u => map[u.id] = u.name)` builds: a later entry overwrites an earlier one. */
  function UsersMapOf(entries: seq<UserEntry>): (m: map<string, string>)
    ensures forall id :: id in m <==> exists i :: 0 <= i < |entries| && entries[i].id == id
  {
    if entries == [] then map[]
    else
      var last := entries[|entries| - 1];
      var init := entries[..|entries| - 1];
      var m0 := UsersMapOf(init);
      assert forall i :: 0 <= i < |init| ==> entries[i] == init[i];
      m0[last.id := last.name]
  }

  /** Each id maps to the name of its last entry. */
  lemma {:induction false} LaterEntryWins(entries: seq<UserEntry>, i: nat)
    requires i < |entries|
    requires forall j :: i < j < |entries| ==> entries[j].id != entries[i].id
    ensures entries[i].id in UsersMapOf(entries) && UsersMapOf(entries)[entries[i].id] == entries[i].name
  {
    if i < |entries| - 1 {
      var init := entries[..|entries| - 1];
      LaterEntryWins(init, i);
    }
  }

  class UserStoreState {
    var currentUser: Option<AuthUser>
    var crmUser: Option<Doc>
    var loading: bool
    var usersMap: map<string, string>

    constructor ()
      ensures currentUser == None && crmUser == None && loading && usersMap == map[]
    {
      currentUser, crmUser, loading, usersMap := None, None, true, map[];
    }

    /** `fetchAllUsers`; `response` is the `/users` call's outcome, `Ok(None)` when it carries no list. */
    method FetchAllUsers(response: Result<Option<seq<UserEntry>>, RequestFailed>)
      modifies this
      ensures response.Ok? && response.value.Some? ==> usersMap == UsersMapOf(response.value.value)
      ensures !(response.Ok? && response.value.Some?) ==> usersMap == old(usersMap)
      ensures currentUser == old(currentUser) && crmUser == old(crmUser) && loading == old(loading)
    {
      if response.Ok? && response.value.Some? {
        var entries := response.value.value;
        var m: map<string, string> := map[];
        var i := 0;
        while i < |entries|
          invariant 0 <= i <= |entries|
          invariant m == UsersMapOf(entries[..i])
        {
          assert entries[..i + 1][..i] == entries[..i];
          m := m[entries[i].id := entries[i].name];
          i := i + 1;
        }
        assert entries[..i] == entries;
        usersMap := m;
      }
    }

    /** `clearUser`. */
    method ClearUser()
      modifies this
      ensures currentUser == None && crmUser == None && !loading && usersMap == map[]
    {
      currentUser, crmUser, loading, usersMap := None, None, false, map[];
    }

    /** `signOut`; `succeeded` is the identity provider's outcome. */
    method SignOut(succeeded: bool)
      modifies this
      ensures succeeded ==> currentUser == None && crmUser == None && !loading && usersMap == map[]
      ensures !succeeded ==> !loading && currentUser == old(currentUser) && crmUser == old(crmUser) && usersMap == old(usersMap)
    {
      loading := true;
      if succeeded {
        currentUser, crmUser, loading, usersMap := None, None, false, map[];
      } else {
        loading := false;
      }
    }

    /**
     * `setUser`; `me` is the `/users/me` outcome (`Ok(None)` when it carries
     * no profile) and `users` the outcome of the `fetchAllUsers` it starts,
     * taken as settled before `setUser` returns.
     */
    method SetUser(user: Option<AuthUser>,
                   me: Result<Option<Doc>, RequestFailed>,
                   users: Result<Option<seq<UserEntry>>, RequestFailed>)
      modifies this
      ensures currentUser == user && !loading
      ensures user.None? ==> crmUser == None && usersMap == old(usersMap)
      ensures user.Some? && me.Ok? && me.value.Some? ==> crmUser == me.value
      ensures user.Some? && !(me.Ok? && me.value.Some?) ==> crmUser == old(crmUser)
      ensures user.Some? && me.Ok? && users.Ok? && users.value.Some? ==> usersMap == UsersMapOf(users.value.value)
      ensures !(user.Some? && me.Ok? && users.Ok? && users.value.Some?) ==> usersMap == old(usersMap)
    {
      currentUser := user;
      loading := true;
      if user.Some? {
        if me.Err? {
          loading := false;
          return;
        }
        if me.value.Some? {
          crmUser := me.value;
        }
        FetchAllUsers(users);
        loading := false;
      } else {
        crmUser := None;
        loading := false;
      }
    }

    /** `refreshCrmUser`: only for a signed-in user, and only when `/users/me` returns a profile. */
    method RefreshCrmUser(me: Result<Option<Doc>, RequestFailed>)
      modifies this
      ensures currentUser.Some? && me.Ok? && me.value.Some? ==> crmUser == me.value
      ensures !(currentUser.Some? && me.Ok? && me.value.Some?) ==> crmUser == old(crmUser)
      ensures currentUser == old(currentUser) && loading == old(loading) && usersMap == old(usersMap)
    {
      if currentUser.Some? && me.Ok? && me.value.Some? {
        crmUser := me.value;
      }
    }
  }
}
