/**
 * The admin user pages: the user list with its statistics, and user
 * deletion behind the admin, self-deletion and CSRF gates.
 */
module UserController {
  import opened Wrappers
  import opened Users
  import Roles
  import Http

  /** The statistics block of the user list page. */
  datatype Stats = Stats(totalUsers: nat, oauthUsers: nat, regularUsers: nat, adminUsers: nat)

  datatype IndexResponse = IndexDenied | UsersPage(users: seq<User>, stats: Stats)

  predicate HoldsAdmin(u: User) { Roles.RoleAdmin in u.roles }

  /** The `array_reduce` tally: one for each listed user whose roles contain ROLE_ADMIN. */
  function CountAdmins(users: seq<User>): nat {
    if users == [] then 0
    else CountAdmins(users[..|users| - 1]) + (if HoldsAdmin(users[|users| - 1]) then 1 else 0)
  }

  /** `count(['isOAuth' => flag])`: the users whose OAuth flag equals `flag`. */
  function CountOAuth(users: seq<User>, flag: bool): nat {
    if users == [] then 0
    else CountOAuth(users[..|users| - 1], flag) + (if users[|users| - 1].isOAuth == flag then 1 else 0)
  }

  /** The tally is additive over concatenation, so it counts each admin exactly once. */
  lemma {:induction false} CountAdminsAppend(a: seq<User>, b: seq<User>)
    ensures CountAdmins(a + b) == CountAdmins(a) + CountAdmins(b)
  {
    if b == [] {
      assert a + b == a;
    } else {
      var b' := b[..|b| - 1];
      CountAdminsAppend(a, b');
      assert (a + b)[..|a + b| - 1] == a + b';
    }
  }

  /** Every user is counted as either OAuth or regular, never both. */
  lemma {:induction false} OAuthPartition(users: seq<User>)
    ensures CountOAuth(users, true) + CountOAuth(users, false) == |users|
  {
    if users != [] {
      OAuthPartition(users[..|users| - 1]);
    }
  }

  lemma {:induction false} CountAdminsBound(users: seq<User>)
    ensures CountAdmins(users) <= |users|
    ensures CountAdmins(users) == |users| <==> forall i :: 0 <= i < |users| ==> HoldsAdmin(users[i])
  {
    if users != [] {
      var init := users[..|users| - 1];
      CountAdminsBound(init);
      if forall i :: 0 <= i < |init| ==> HoldsAdmin(init[i]) {
        assert forall i :: 0 <= i < |users| - 1 ==> users[i] == init[i];
      }
    }
  }

  /** The tally counts exactly the positions holding an admin. */
  lemma {:induction false} CountAdminsIsSetSize(users: seq<User>)
    ensures CountAdmins(users) == |set i | 0 <= i < |users| && HoldsAdmin(users[i])|
  {
    if users != [] {
      var n := |users| - 1;
      var init := users[..n];
      CountAdminsIsSetSize(init);
      var all := set i | 0 <= i < |users| && HoldsAdmin(users[i]);
      var prefix := set i | 0 <= i < n && HoldsAdmin(init[i]);
      if HoldsAdmin(users[n]) {
        assert all == prefix + {n};
      } else {
        assert all == prefix;
      }
    }
  }

  /** The OAuth count is exactly the positions whose flag equals `flag`. */
  lemma {:induction false} CountOAuthIsSetSize(users: seq<User>, flag: bool)
    ensures CountOAuth(users, flag) == |set i | 0 <= i < |users| && users[i].isOAuth == flag|
  {
    if users != [] {
      var n := |users| - 1;
      var init := users[..n];
      CountOAuthIsSetSize(init, flag);
      var all := set i | 0 <= i < |users| && users[i].isOAuth == flag;
      var prefix := set i | 0 <= i < n && init[i].isOAuth == flag;
      if users[n].isOAuth == flag {
        assert all == prefix + {n};
      } else {
        assert all == prefix;
      }
    }
  }

  function ComputeStats(all: seq<User>): Stats {
    Stats(|all|, CountOAuth(all, true), CountOAuth(all, false), CountAdmins(all))
  }

  /** `index`: admins get the list of all users with its statistics; anyone else is refused. */
  function Index(actor: Option<Http.Principal>, all: seq<User>): (r: IndexResponse)
    ensures r.UsersPage? <==> Http.IsAdmin(actor)
    ensures r.UsersPage? ==> r.users == all
    ensures r.UsersPage? ==>
      r.stats == Stats(|all|, CountOAuth(all, true), CountOAuth(all, false), CountAdmins(all))
    ensures r.UsersPage? ==> r.stats.oauthUsers + r.stats.regularUsers == r.stats.totalUsers
    ensures r.UsersPage? ==> r.stats.adminUsers <= r.stats.totalUsers
  {
    if !Http.IsAdmin(actor) then IndexDenied
    else
      OAuthPartition(all);
      CountAdminsBound(all);
      UsersPage(all, ComputeStats(all))
  }

  const SelfDeleteMessage: string := "No puedes eliminar tu propio usuario."
  const DeletedMessage: string := "Usuario eliminado correctamente."
  const InvalidCsrfMessage: string := "Token CSRF inválido."

  /** Which branch of `delete` runs. */
  datatype DeleteStep = TargetNotFound | NotAdmin | SelfDelete | Removed | BadCsrfToken

  datatype DeleteResponse = DeleteNotFound | DeleteDenied | RedirectToUsers

  /**
   * The branch taken: the route's user must exist, then the admin gate, the
   * self-deletion guard and the CSRF check, in that order.
   */
  function DeleteBranch(users: map<nat, User>, actor: Option<Http.Principal>, targetId: nat, csrfValid: bool)
    : DeleteStep
  {
    if targetId !in users then TargetNotFound
    else if !Http.IsAdmin(actor) then NotAdmin
    else if actor.value.user.id == targetId then SelfDelete
    else if csrfValid then Removed
    else BadCsrfToken
  }

  function DeleteFlashes(step: DeleteStep): seq<Http.Flash> {
    match step
    case SelfDelete => [Http.Flash(Http.Error, SelfDeleteMessage)]
    case Removed => [Http.Flash(Http.Success, DeletedMessage)]
    case BadCsrfToken => [Http.Flash(Http.Error, InvalidCsrfMessage)]
    case _ => []
  }

  /** `delete`: removes the target row only on the Removed branch; every admin branch redirects to the list. */
  method Delete(
    table: UserTable, session: Http.Session, actor: Option<Http.Principal>, targetId: nat, csrfValid: bool)
    returns (r: DeleteResponse)
    requires table.Valid()
    modifies table, session
    ensures table.Valid() && table.nextId == old(table.nextId)
    ensures var step := DeleteBranch(old(table.users), actor, targetId, csrfValid);
      && table.users == (if step == Removed then old(table.users) - {targetId} else old(table.users))
      && session.flashes == old(session.flashes) + DeleteFlashes(step)
      && r == match step
              case TargetNotFound => DeleteNotFound
              case NotAdmin => DeleteDenied
              case _ => RedirectToUsers
  {
    if targetId !in table.users {
      return DeleteNotFound;
    }
    if !Http.IsAdmin(actor) {
      return DeleteDenied;
    }
    if actor.value.user.id == targetId {
      session.AddFlash(Http.Error, SelfDeleteMessage);
      return RedirectToUsers;
    }
    if csrfValid {
      table.Remove(targetId);
      session.AddFlash(Http.Success, DeletedMessage);
    } else {
      session.AddFlash(Http.Error, InvalidCsrfMessage);
    }
    r := RedirectToUsers;
  }

  /**
   * A row is removed only by an admin who is not that user and whose CSRF
   * token is valid; then exactly that row goes and the others stay.
   */
  lemma RemovalConditions(users: map<nat, User>, actor: Option<Http.Principal>, targetId: nat, csrfValid: bool)
    ensures DeleteBranch(users, actor, targetId, csrfValid) == Removed <==>
      targetId in users && Http.IsAdmin(actor) && actor.value.user.id != targetId && csrfValid
  {
  }

  /** An admin deleting themself changes nothing in the table and gets one error flash. */
  lemma SelfDeleteKeepsUser(users: map<nat, User>, admin: Http.Principal, csrfValid: bool)
    requires admin.user.id in users && Roles.RoleAdmin in admin.granted
    ensures DeleteBranch(users, Some(admin), admin.user.id, csrfValid) == SelfDelete
    ensures DeleteFlashes(SelfDelete) == [Http.Flash(Http.Error, SelfDeleteMessage)]
  {
  }
}
