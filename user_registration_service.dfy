/**
 * The registration orchestrator: validation gate, exact-email uniqueness
 * gate, then insertion of a new account with one role and a hashed
 * password, answering with a projection of the stored row or the errors.
 */
module UserRegistrationService {
  import opened Users
  import opened RegisterUserDto

  const DuplicateEmail: string := "El usuario con este email ya existe"

  /** The fields of the stored account that a successful registration reports. */
  datatype UserSummary = UserSummary(
    id: nat, email: string, firstName: string, lastName: string, roles: seq<string>)

  datatype RegistrationResult = Registered(user: UserSummary) | Rejected(errors: seq<string>)

  function Summary(u: User): UserSummary {
    UserSummary(u.id, u.email, u.firstName, u.lastName, u.roles)
  }

  /** The account built from an accepted request; `hash` is the injected password hasher. */
  function NewUser(id: nat, dto: RegisterUserDto, hash: string -> string, now: nat): User {
    User(id, dto.email, hash(dto.password), dto.firstName, dto.lastName, [dto.role], false, now)
  }

  function MessagesOf(vs: seq<Violation>): seq<string> {
    seq(|vs|, i requires 0 <= i < |vs| => Message(vs[i]))
  }

  /** The reply `register` gives on a table holding `users` whose next id is `nextId`. */
  function Outcome(
    users: map<nat, User>, nextId: nat, dto: RegisterUserDto, cfg: ValidatorConfig,
    hash: string -> string, now: nat): RegistrationResult
  {
    var violations := Validate(dto, cfg);
    if |violations| > 0 then Rejected(MessagesOf(violations))
    else if EmailTaken(users, dto.email) then Rejected([DuplicateEmail])
    else Registered(Summary(NewUser(nextId, dto, hash, now)))
  }

  /** The table after `register`: one more row on success, unchanged otherwise. */
  function UsersAfter(
    users: map<nat, User>, nextId: nat, dto: RegisterUserDto, cfg: ValidatorConfig,
    hash: string -> string, now: nat): map<nat, User>
  {
    if Outcome(users, nextId, dto, cfg, hash, now).Registered? then users[nextId := NewUser(nextId, dto, hash, now)]
    else users
  }

  /** The `foreach` that turns the violation list into its messages. */
  method CollectMessages(violations: seq<Violation>) returns (messages: seq<string>)
    ensures |messages| == |violations|
    ensures forall i :: 0 <= i < |violations| ==> messages[i] == Message(violations[i])
  {
    messages := [];
    var i := 0;
    while i < |violations|
      invariant 0 <= i <= |violations|
      invariant |messages| == i
      invariant forall k :: 0 <= k < i ==> messages[k] == Message(violations[k])
    {
      messages := messages + [Message(violations[i])];
      i := i + 1;
    }
  }

  class RegistrationService {
    const table: UserTable
    const hashPassword: string -> string
    const validator: ValidatorConfig

    ghost predicate Valid()
      reads table
    {
      table.Valid()
    }

    constructor (table: UserTable, hashPassword: string -> string, validator: ValidatorConfig)
      ensures this.table == table && this.hashPassword == hashPassword && this.validator == validator
    {
      this.table := table;
      this.hashPassword := hashPassword;
      this.validator := validator;
    }

    /** Registers `dto`, stamping the new account with the clock value `now`. */
    method Register(dto: RegisterUserDto, now: nat) returns (r: RegistrationResult)
      requires Valid()
      modifies table
      ensures Valid()
      ensures r == Outcome(old(table.users), old(table.nextId), dto, validator, hashPassword, now)
      ensures table.users == UsersAfter(old(table.users), old(table.nextId), dto, validator, hashPassword, now)
      ensures table.nextId == if r.Registered? then old(table.nextId) + 1 else old(table.nextId)
    {
      var violations := Validate(dto, validator);
      if |violations| > 0 {
        var messages := CollectMessages(violations);
        assert messages == MessagesOf(violations);
        return Rejected(messages);
      }
      var existing := table.FindOneByEmail(dto.email);
      if existing.Some? {
        return Rejected([DuplicateEmail]);
      }
      var user := NewUser(0, dto, hashPassword, now);
      var id := table.Persist(user);
      r := Registered(Summary(table.users[id]));
    }
  }

  /** A request with violations is rejected with exactly their messages, in order, and nothing is stored. */
  lemma InvalidRejected(
    users: map<nat, User>, nextId: nat, dto: RegisterUserDto, cfg: ValidatorConfig,
    hash: string -> string, now: nat)
    requires Validate(dto, cfg) != []
    ensures Outcome(users, nextId, dto, cfg, hash, now).Rejected?
    ensures |Outcome(users, nextId, dto, cfg, hash, now).errors| == |Validate(dto, cfg)| > 0
    ensures forall i :: 0 <= i < |Validate(dto, cfg)| ==>
      Outcome(users, nextId, dto, cfg, hash, now).errors[i] == Message(Validate(dto, cfg)[i])
    ensures UsersAfter(users, nextId, dto, cfg, hash, now) == users
  {
  }

  /** Validation comes first: an invalid request gets the same reply whatever the table holds. */
  lemma ValidationBeforeLookup(
    users1: map<nat, User>, users2: map<nat, User>, nextId1: nat, nextId2: nat,
    dto: RegisterUserDto, cfg: ValidatorConfig, hash: string -> string, now: nat)
    requires Validate(dto, cfg) != []
    ensures Outcome(users1, nextId1, dto, cfg, hash, now) == Outcome(users2, nextId2, dto, cfg, hash, now)
  {
  }

  /** A valid request for a taken email is rejected with the one duplicate message and nothing is stored. */
  lemma DuplicateRejected(
    users: map<nat, User>, nextId: nat, dto: RegisterUserDto, cfg: ValidatorConfig,
    hash: string -> string, now: nat)
    requires Validate(dto, cfg) == [] && EmailTaken(users, dto.email)
    ensures Outcome(users, nextId, dto, cfg, hash, now) == Rejected([DuplicateEmail])
    ensures UsersAfter(users, nextId, dto, cfg, hash, now) == users
  {
  }

  /**
   * A valid request for a free email adds exactly one row, under the next
   * id, holding the request's names and email, the single requested role
   * and the hash of the password; the reply projects that row.
   */
  lemma AcceptedStoresOneUser(
    users: map<nat, User>, nextId: nat, dto: RegisterUserDto, cfg: ValidatorConfig,
    hash: string -> string, now: nat)
    requires WellFormed(users, nextId)
    requires Validate(dto, cfg) == [] && !EmailTaken(users, dto.email)
    ensures var after := UsersAfter(users, nextId, dto, cfg, hash, now);
      && nextId !in users
      && after.Keys == users.Keys + {nextId}
      && (forall id :: id in users ==> after[id] == users[id])
      && after[nextId].email == dto.email
      && after[nextId].firstName == dto.firstName
      && after[nextId].lastName == dto.lastName
      && after[nextId].roles == [dto.role]
      && after[nextId].password == hash(dto.password)
      && Outcome(users, nextId, dto, cfg, hash, now) == Registered(Summary(after[nextId]))
      && Outcome(users, nextId, dto, cfg, hash, now).user.id > 0
  {
  }

  /** The reply is a success exactly when the request is valid and its email is free. */
  lemma RegisteredIff(
    users: map<nat, User>, nextId: nat, dto: RegisterUserDto, cfg: ValidatorConfig,
    hash: string -> string, now: nat)
    ensures Outcome(users, nextId, dto, cfg, hash, now).Registered? <==>
      (forall v :: !Violates(dto, cfg, v)) && !EmailTaken(users, dto.email)
  {
    ValidIffNoViolation(dto, cfg);
  }

  /** Registering keeps the table well formed, in particular keeps emails unique. */
  lemma RegisterKeepsWellFormed(
    users: map<nat, User>, nextId: nat, dto: RegisterUserDto, cfg: ValidatorConfig,
    hash: string -> string, now: nat)
    requires WellFormed(users, nextId)
    ensures WellFormed(UsersAfter(users, nextId, dto, cfg, hash, now),
                       if Outcome(users, nextId, dto, cfg, hash, now).Registered? then nextId + 1 else nextId)
  {
  }

  /** After a successful registration the same request is refused as a duplicate. */
  lemma {:induction false} RegisterTwiceIsDuplicate(
    users: map<nat, User>, nextId: nat, dto: RegisterUserDto, cfg: ValidatorConfig,
    hash: string -> string, now: nat, later: nat)
    requires Outcome(users, nextId, dto, cfg, hash, now).Registered?
    ensures Outcome(UsersAfter(users, nextId, dto, cfg, hash, now), nextId + 1, dto, cfg, hash, later)
      == Rejected([DuplicateEmail])
  {
    var after := UsersAfter(users, nextId, dto, cfg, hash, now);
    assert after[nextId].email == dto.email;
  }
}
