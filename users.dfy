/**
 * The user table: accounts keyed by a generated id, with the email lookup
 * and the insert and remove operations the services and controllers use.
 */
module Users {
  import opened Wrappers

  /** An account row; `password` holds the hash, never the plain text. */
  datatype User = User(
    id: nat, email: string, password: string, firstName: string, lastName: string,
    roles: seq<string>, isOAuth: bool, updatedAt: nat)

  predicate EmailTaken(users: map<nat, User>, email: string) {
    exists id :: id in users && users[id].email == email
  }

  /**
   * The table's invariant: ids are positive, below the next id to hand out,
   * and stored in the row; no two rows share an email.
   */
  predicate WellFormed(users: map<nat, User>, nextId: nat) {
    && 1 <= nextId
    && (forall id :: id in users ==> 1 <= id < nextId && users[id].id == id)
    && (forall i, j :: i in users && j in users && users[i].email == users[j].email ==> i == j)
  }

  class UserTable {
    var users: map<nat, User>
    var nextId: nat

    ghost predicate Valid()
      reads this
    {
      WellFormed(users, nextId)
    }

    constructor ()
      ensures Valid() && users == map[] && nextId == 1
    {
      users := map[];
      nextId := 1;
    }

    /** `findOneBy(['email' => email])`: the row with exactly this email, if any. */
    method FindOneByEmail(email: string) returns (found: Option<User>)
      ensures found.Some? <==> EmailTaken(users, email)
      ensures found.Some? ==> found.value in users.Values && found.value.email == email
    {
      if id :| id in users && users[id].email == email {
        found := Some(users[id]);
      } else {
        found := None;
      }
    }

    /** `persist` and `flush` of a new row: it receives the next id. */
    method Persist(u: User) returns (id: nat)
      requires Valid() && !EmailTaken(users, u.email)
      modifies this
      ensures Valid()
      ensures id == old(nextId) && nextId == old(nextId) + 1
      ensures users == old(users)[id := u.(id := id)]
    {
      id := nextId;
      users := users[id := u.(id := id)];
      nextId := nextId + 1;
    }

    /** `remove` and `flush` of an existing row. */
    method Remove(id: nat)
      requires Valid() && id in users
      modifies this
      ensures Valid()
      ensures users == old(users) - {id} && nextId == old(nextId)
    {
      users := users - {id};
    }
  }
}
