/**
 * The registration request: five string fields filled from a raw key/value
 * map with defaults, and the declarative constraints the validator checks on
 * them, reported as violations in declaration order.
 */
module RegisterUserDto {
  import opened Wrappers
  import Roles

  /** A decoded request body or form: each key maps to a string or to null. */
  type RawData = map<string, Option<string>>

  datatype RegisterUserDto = RegisterUserDto(
    email: string, password: string, firstName: string, lastName: string, role: string)

  /** `$data[key] ?? default`: an absent key and a null value both give the default. */
  function Field(data: RawData, key: string, default: string): string {
    if key in data then data[key].GetOr(default) else default
  }

  /**
   * The constructor: absent or null keys become empty strings, and ROLE_USER
   * for the role; present strings are copied verbatim.
   */
  function FromData(data: RawData): (dto: RegisterUserDto)
    ensures ("email" !in data || data["email"].None?) ==> dto.email == ""
    ensures ("password" !in data || data["password"].None?) ==> dto.password == ""
    ensures ("firstName" !in data || data["firstName"].None?) ==> dto.firstName == ""
    ensures ("lastName" !in data || data["lastName"].None?) ==> dto.lastName == ""
    ensures ("role" !in data || data["role"].None?) ==> dto.role == Roles.RoleUser
    ensures "email" in data && data["email"].Some? ==> dto.email == data["email"].value
    ensures "password" in data && data["password"].Some? ==> dto.password == data["password"].value
    ensures "firstName" in data && data["firstName"].Some? ==> dto.firstName == data["firstName"].value
    ensures "lastName" in data && data["lastName"].Some? ==> dto.lastName == data["lastName"].value
    ensures "role" in data && data["role"].Some? ==> dto.role == data["role"].value
  {
    RegisterUserDto(
      Field(data, "email", ""),
      Field(data, "password", ""),
      Field(data, "firstName", ""),
      Field(data, "lastName", ""),
      Field(data, "role", Roles.RoleUser))
  }

  /**
   * What the validator library decides outside these constraints: the email
   * grammar, and whether the Email and Length constraints also judge the
   * empty string (which NotBlank already reports).
   */
  datatype ValidatorConfig = ValidatorConfig(
    isEmail: string -> bool, emailChecksEmpty: bool, lengthChecksEmpty: bool)

  /** One failed constraint; the names follow the property and the constraint. */
  datatype Violation =
    | EmailBlank | EmailInvalid
    | PasswordBlank | PasswordTooShort
    | FirstNameBlank | FirstNameTooShort | FirstNameTooLong
    | LastNameBlank | LastNameTooShort | LastNameTooLong
    | RoleInvalid

  const PasswordMinLength: nat := 6
  const NameMinLength: nat := 2
  const NameMaxLength: nat := 100

  const EmailBlankMessage: string := "El email es obligatorio"
  const EmailInvalidMessage: string := "El formato del email no es válido"
  const PasswordBlankMessage: string := "La contraseña es obligatoria"
  const PasswordTooShortMessage: string := "La contraseña debe tener al menos 6 caracteres"
  const FirstNameBlankMessage: string := "El nombre es obligatorio"
  const LastNameBlankMessage: string := "El apellido es obligatorio"
  const RoleInvalidMessage: string := "El rol debe ser válido"
  /** The validator library's default Length messages, used by the two name fields. */
  const NameTooShortMessage: string := "This value is too short. It should have 2 characters or more."
  const NameTooLongMessage: string := "This value is too long. It should have 100 characters or less."

  /** The message each violation carries. */
  function Message(v: Violation): string {
    match v
    case EmailBlank => EmailBlankMessage
    case EmailInvalid => EmailInvalidMessage
    case PasswordBlank => PasswordBlankMessage
    case PasswordTooShort => PasswordTooShortMessage
    case FirstNameBlank => FirstNameBlankMessage
    case FirstNameTooShort => NameTooShortMessage
    case FirstNameTooLong => NameTooLongMessage
    case LastNameBlank => LastNameBlankMessage
    case LastNameTooShort => NameTooShortMessage
    case LastNameTooLong => NameTooLongMessage
    case RoleInvalid => RoleInvalidMessage
  }

  /** Position of a violation in the validator's order: properties, then constraints, as declared. */
  function Rank(v: Violation): nat {
    match v
    case EmailBlank => 0
    case EmailInvalid => 1
    case PasswordBlank => 3
    case PasswordTooShort => 4
    case FirstNameBlank => 6
    case FirstNameTooShort => 7
    case FirstNameTooLong => 8
    case LastNameBlank => 9
    case LastNameTooShort => 10
    case LastNameTooLong => 11
    case RoleInvalid => 12
  }

  /** NotBlank: the empty string is blank ("0" and spaces are not). */
  predicate Blank(s: string) { s == "" }

  /** Whether a Length or Email constraint looks at the value at all. */
  predicate Judged(s: string, checksEmpty: bool) { s != "" || checksEmpty }

  /** The constraint-by-constraint reference: does `dto` break the rule behind `v`? */
  predicate Violates(dto: RegisterUserDto, cfg: ValidatorConfig, v: Violation) {
    match v
    case EmailBlank => Blank(dto.email)
    case EmailInvalid => Judged(dto.email, cfg.emailChecksEmpty) && !cfg.isEmail(dto.email)
    case PasswordBlank => Blank(dto.password)
    case PasswordTooShort => Judged(dto.password, cfg.lengthChecksEmpty) && |dto.password| < PasswordMinLength
    case FirstNameBlank => Blank(dto.firstName)
    case FirstNameTooShort => Judged(dto.firstName, cfg.lengthChecksEmpty) && |dto.firstName| < NameMinLength
    case FirstNameTooLong => |dto.firstName| > NameMaxLength
    case LastNameBlank => Blank(dto.lastName)
    case LastNameTooShort => Judged(dto.lastName, cfg.lengthChecksEmpty) && |dto.lastName| < NameMinLength
    case LastNameTooLong => |dto.lastName| > NameMaxLength
    case RoleInvalid => dto.role !in Roles.KnownRoles
  }

  function EmailViolations(email: string, cfg: ValidatorConfig): seq<Violation> {
    (if Blank(email) then [EmailBlank] else [])
    + (if Judged(email, cfg.emailChecksEmpty) && !cfg.isEmail(email) then [EmailInvalid] else [])
  }

  function PasswordViolations(password: string, cfg: ValidatorConfig): seq<Violation> {
    (if Blank(password) then [PasswordBlank] else [])
    + (if Judged(password, cfg.lengthChecksEmpty) && |password| < PasswordMinLength then [PasswordTooShort] else [])
  }

  /** NotBlank then Length(min: 2, max: 100) on one name field. */
  function NameViolations(name: string, cfg: ValidatorConfig, blank: Violation, short: Violation, long: Violation)
    : seq<Violation>
  {
    (if Blank(name) then [blank] else [])
    + (if Judged(name, cfg.lengthChecksEmpty) && |name| < NameMinLength then [short]
       else if |name| > NameMaxLength then [long]
       else [])
  }

  function RoleViolations(role: string): seq<Violation> {
    if role in Roles.KnownRoles then [] else [RoleInvalid]
  }

  /** All constraints evaluated, none short-circuited, in declaration order. */
  function Validate(dto: RegisterUserDto, cfg: ValidatorConfig): seq<Violation> {
    EmailViolations(dto.email, cfg)
    + PasswordViolations(dto.password, cfg)
    + NameViolations(dto.firstName, cfg, FirstNameBlank, FirstNameTooShort, FirstNameTooLong)
    + NameViolations(dto.lastName, cfg, LastNameBlank, LastNameTooShort, LastNameTooLong)
    + RoleViolations(dto.role)
  }

  /** The property a violation belongs to, in declaration order. */
  function Property(v: Violation): nat {
    match v
    case EmailBlank | EmailInvalid => 0
    case PasswordBlank | PasswordTooShort => 1
    case FirstNameBlank | FirstNameTooShort | FirstNameTooLong => 2
    case LastNameBlank | LastNameTooShort | LastNameTooLong => 3
    case RoleInvalid => 4
  }

  /** Ranks are grouped by property: every rank of an earlier property is smaller. */
  lemma RankWithinProperty(v: Violation)
    ensures 3 * Property(v) <= Rank(v) < 3 * Property(v) + 3
  {
  }

  predicate InOrder(s: seq<Violation>) {
    forall i, j :: 0 <= i < j < |s| ==> Rank(s[i]) < Rank(s[j])
  }

  /** The violations of one property, sorted, are exactly its broken constraints. */
  predicate ExactFor(s: seq<Violation>, dto: RegisterUserDto, cfg: ValidatorConfig, p: nat) {
    && InOrder(s)
    && (forall v :: v in s ==> Property(v) == p && Violates(dto, cfg, v))
    && (forall v :: Property(v) == p && Violates(dto, cfg, v) ==> v in s)
  }

  lemma EmailExact(dto: RegisterUserDto, cfg: ValidatorConfig)
    ensures ExactFor(EmailViolations(dto.email, cfg), dto, cfg, 0)
  {
  }

  lemma PasswordExact(dto: RegisterUserDto, cfg: ValidatorConfig)
    ensures ExactFor(PasswordViolations(dto.password, cfg), dto, cfg, 1)
  {
  }

  lemma FirstNameExact(dto: RegisterUserDto, cfg: ValidatorConfig)
    ensures ExactFor(NameViolations(dto.firstName, cfg, FirstNameBlank, FirstNameTooShort, FirstNameTooLong), dto, cfg, 2)
  {
  }

  lemma LastNameExact(dto: RegisterUserDto, cfg: ValidatorConfig)
    ensures ExactFor(NameViolations(dto.lastName, cfg, LastNameBlank, LastNameTooShort, LastNameTooLong), dto, cfg, 3)
  {
  }

  lemma RoleExact(dto: RegisterUserDto, cfg: ValidatorConfig)
    ensures ExactFor(RoleViolations(dto.role), dto, cfg, 4)
  {
  }

  /** Appending the violations of a later property keeps the list exact and in order. */
  lemma {:induction false} AppendProperty(a: seq<Violation>, b: seq<Violation>, dto: RegisterUserDto, cfg: ValidatorConfig, p: nat)
    requires InOrder(a) && forall v :: v in a ==> Property(v) < p && Violates(dto, cfg, v)
    requires ExactFor(b, dto, cfg, p)
    ensures InOrder(a + b)
    ensures forall v :: v in a + b ==> Property(v) <= p && Violates(dto, cfg, v)
  {
    forall i, j | 0 <= i < j < |a + b|
      ensures Rank((a + b)[i]) < Rank((a + b)[j])
    {
      if j >= |a| && i < |a| {
        RankWithinProperty(a[i]);
        RankWithinProperty(b[j - |a|]);
        assert a[i] in a && b[j - |a|] in b;
      }
    }
  }

  /** The reported violations are exactly the broken constraints, each once, in the validator's order. */
  lemma {:induction false} ValidateExact(dto: RegisterUserDto, cfg: ValidatorConfig)
    ensures forall v :: v in Validate(dto, cfg) <==> Violates(dto, cfg, v)
    ensures InOrder(Validate(dto, cfg))
  {
    var e := EmailViolations(dto.email, cfg);
    var p := PasswordViolations(dto.password, cfg);
    var f := NameViolations(dto.firstName, cfg, FirstNameBlank, FirstNameTooShort, FirstNameTooLong);
    var l := NameViolations(dto.lastName, cfg, LastNameBlank, LastNameTooShort, LastNameTooLong);
    var r := RoleViolations(dto.role);
    EmailExact(dto, cfg);
    PasswordExact(dto, cfg);
    FirstNameExact(dto, cfg);
    LastNameExact(dto, cfg);
    RoleExact(dto, cfg);
    AppendProperty(e, p, dto, cfg, 1);
    AppendProperty(e + p, f, dto, cfg, 2);
    AppendProperty(e + p + f, l, dto, cfg, 3);
    AppendProperty(e + p + f + l, r, dto, cfg, 4);
    assert Validate(dto, cfg) == e + p + f + l + r;
    forall v | Violates(dto, cfg, v)
      ensures v in Validate(dto, cfg)
    {
      var k := Property(v);
      if k == 0 { assert v in e; }
      else if k == 1 { assert v in p; }
      else if k == 2 { assert v in f; }
      else if k == 3 { assert v in l; }
      else { assert v in r; }
    }
  }

  /** A request is valid exactly when no constraint is broken. */
  lemma ValidIffNoViolation(dto: RegisterUserDto, cfg: ValidatorConfig)
    ensures Validate(dto, cfg) == [] <==> forall v :: !Violates(dto, cfg, v)
  {
    ValidateExact(dto, cfg);
    if Validate(dto, cfg) != [] {
      assert Validate(dto, cfg)[0] in Validate(dto, cfg);
    }
  }

  /** Each blank required field yields its own "obligatorio"/"obligatoria" violation. */
  lemma BlankFieldsReported(dto: RegisterUserDto, cfg: ValidatorConfig)
    ensures dto.email == "" ==> EmailBlank in Validate(dto, cfg)
    ensures dto.password == "" ==> PasswordBlank in Validate(dto, cfg)
    ensures dto.firstName == "" ==> FirstNameBlank in Validate(dto, cfg)
    ensures dto.lastName == "" ==> LastNameBlank in Validate(dto, cfg)
  {
    ValidateExact(dto, cfg);
  }

  /** A non-empty password is rejected for length exactly when it is shorter than six characters. */
  lemma PasswordLengthRule(dto: RegisterUserDto, cfg: ValidatorConfig)
    requires dto.password != ""
    ensures PasswordTooShort in Validate(dto, cfg) <==> |dto.password| < 6
  {
    ValidateExact(dto, cfg);
  }

  /** A non-empty name is rejected for length exactly when it falls outside 2..100. */
  lemma NameLengthRule(dto: RegisterUserDto, cfg: ValidatorConfig)
    ensures dto.firstName != "" ==>
      (FirstNameTooShort in Validate(dto, cfg) || FirstNameTooLong in Validate(dto, cfg)
       <==> !(2 <= |dto.firstName| <= 100))
    ensures dto.lastName != "" ==>
      (LastNameTooShort in Validate(dto, cfg) || LastNameTooLong in Validate(dto, cfg)
       <==> !(2 <= |dto.lastName| <= 100))
  {
    ValidateExact(dto, cfg);
  }

  /** A non-empty email is rejected for format exactly when the email grammar refuses it. */
  lemma EmailFormatRule(dto: RegisterUserDto, cfg: ValidatorConfig)
    requires dto.email != ""
    ensures EmailInvalid in Validate(dto, cfg) <==> !cfg.isEmail(dto.email)
  {
    ValidateExact(dto, cfg);
  }

  /** The role is rejected exactly when it is outside the four known roles. */
  lemma RoleChoiceRule(dto: RegisterUserDto, cfg: ValidatorConfig)
    ensures RoleInvalid in Validate(dto, cfg) <==>
      dto.role !in {Roles.RoleUser, Roles.RoleInventoryManager, Roles.RoleManager, Roles.RoleAdmin}
  {
    ValidateExact(dto, cfg);
  }

  /**
   * The request with a malformed email, a three-character password and an
   * empty first name: three violations when Length leaves "" to NotBlank.
   */
  lemma ThreeViolationsExample(cfg: ValidatorConfig)
    requires !cfg.isEmail("invalid-email") && !cfg.lengthChecksEmpty
    ensures Validate(RegisterUserDto("invalid-email", "123", "", "Doe", Roles.RoleUser), cfg)
      == [EmailInvalid, PasswordTooShort, FirstNameBlank]
  {
  }
}
