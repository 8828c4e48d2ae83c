/**
 * The authentication API: JSON and web registration, login and the
 * current-user endpoint, each writing its audit event.
 */
module AuthController {
  import opened Wrappers
  import opened Users
  import opened RegisterUserDto
  import opened UserRegistrationService
  import opened AuditLoggerService
  import Roles
  import Http

  const RegistrationFailedAction: string := "REGISTRATION_FAILED"
  const UserRegisteredAction: string := "USER_REGISTERED"
  const LoginSuccessAction: string := "LOGIN_SUCCESS"
  const ProfileViewedAction: string := "PROFILE_VIEWED"

  /** A request body: either it failed to decode as JSON or it decoded to a key/value map. */
  datatype JsonBody = InvalidJson | Decoded(data: RawData)

  datatype RegisterResponse =
    | BadJson                            // 400, "JSON inválido"
    | RegistrationFailed(errors: seq<string>)  // 400, "Error en el registro"
    | UserCreated(user: UserSummary)     // 201, "Usuario registrado exitosamente"

  /** Details of a failed registration: the submitted email (or "unknown") and the errors. */
  function FailureDetails(data: RawData, errors: seq<string>): Details {
    map["email" := Text(Field(data, "email", "unknown")), "errors" := TextList(errors)]
  }

  /** Details of a successful registration: the submitted email and the requested role or ROLE_USER. */
  function SuccessDetails(data: RawData): Details
    requires "email" in data && data["email"].Some?
  {
    map["email" := Text(data["email"].value), "role" := Text(Field(data, "role", Roles.RoleUser))]
  }

  /** A successful registration had a non-null email key: an absent or null email is blank. */
  lemma RegisteredHasEmail(
    users: map<nat, User>, nextId: nat, data: RawData, cfg: ValidatorConfig, hash: string -> string, now: nat)
    requires Outcome(users, nextId, FromData(data), cfg, hash, now).Registered?
    ensures "email" in data && data["email"].Some?
  {
    BlankFieldsReported(FromData(data), cfg);
  }

  /** PHP truthiness of a selected role: null, "" and "0" are false. */
  predicate Truthy(s: Option<string>) {
    s.Some? && s.value != "" && s.value != "0"
  }

  /** `registerWeb`'s role: the admin's truthy selection when the form has a roles field, else ROLE_USER. */
  function WebRole(isAdmin: bool, form: Http.RegistrationForm): (role: string)
    ensures !isAdmin || !form.hasRoles ==> role == Roles.RoleUser
    ensures isAdmin && form.hasRoles && Truthy(form.roles) ==> role == form.roles.value
    ensures role != Roles.RoleUser ==> isAdmin && form.hasRoles && form.roles == Some(role)
    ensures role != "" && role != "0"
  {
    if isAdmin && form.hasRoles && Truthy(form.roles) then form.roles.value else Roles.RoleUser
  }

  datatype WebResponse = RedirectTo(route: string) | RenderAuthPage

  class AuthController {
    const auditLogger: AuditLogger

    constructor (auditLogger: AuditLogger)
      ensures this.auditLogger == auditLogger
    {
      this.auditLogger := auditLogger;
    }

    /**
     * `POST /api/auth/register`: bad JSON is refused before anything else;
     * otherwise the request is registered and exactly one security event
     * records the outcome.
     */
    method Register(body: JsonBody, service: RegistrationService, now: nat) returns (r: RegisterResponse)
      requires service.Valid()
      modifies service.table, auditLogger
      ensures service.Valid()
      ensures service.table.nextId ==
        if r.UserCreated? then old(service.table.nextId) + 1 else old(service.table.nextId)
      ensures body.InvalidJson? ==>
        r == BadJson && service.table.users == old(service.table.users) && auditLogger.entries == old(auditLogger.entries)
      ensures body.Decoded? ==>
        var out := Outcome(old(service.table.users), old(service.table.nextId), FromData(body.data),
                           service.validator, service.hashPassword, now);
        && service.table.users == UsersAfter(old(service.table.users), old(service.table.nextId), FromData(body.data),
                                          service.validator, service.hashPassword, now)
        && (out.Rejected? ==>
              && r == RegistrationFailed(out.errors)
              && auditLogger.entries == old(auditLogger.entries) +
                   [AuditLogEntry(RegistrationFailedAction, None, Some(SecurityResource),
                                  FailureDetails(body.data, out.errors), None, now)])
        && (out.Registered? ==>
              && "email" in body.data && body.data["email"].Some?
              && r == UserCreated(out.user)
              && auditLogger.entries == old(auditLogger.entries) +
                   [AuditLogEntry(UserRegisteredAction, None, Some(SecurityResource),
                                  SuccessDetails(body.data), None, now)])
    {
      if body.InvalidJson? {
        return BadJson;
      }
      var data := body.data;
      ghost var users0, nextId0 := service.table.users, service.table.nextId;
      var result := service.Register(FromData(data), now);
      if result.Rejected? {
        auditLogger.LogSecurityEvent(RegistrationFailedAction, None, Some(FailureDetails(data, result.errors)), now);
        return RegistrationFailed(result.errors);
      }
      RegisteredHasEmail(users0, nextId0, data, service.validator, service.hashPassword, now);
      auditLogger.LogSecurityEvent(UserRegisteredAction, None, Some(SuccessDetails(data)), now);
      r := UserCreated(result.user);
    }

    /**
     * `POST /api/auth/web/register`: a submitted, valid form is registered
     * with the chosen role; success flashes once and redirects (admins to the
     * user list, others to login), failure flashes each error in order.
     */
    method RegisterWeb(
      actor: Option<Http.Principal>, form: Http.RegistrationForm, service: RegistrationService,
      session: Http.Session, now: nat)
      returns (r: WebResponse)
      requires service.Valid()
      modifies service.table, session
      ensures service.Valid()
      ensures service.table.nextId ==
        if r.RedirectTo? then old(service.table.nextId) + 1 else old(service.table.nextId)
      ensures !(form.submitted && form.valid) ==>
        r == RenderAuthPage && service.table.users == old(service.table.users) && session.flashes == old(session.flashes)
      ensures form.submitted && form.valid ==>
        var out := Outcome(old(service.table.users), old(service.table.nextId),
                           FromData(Http.FormData(form, WebRole(Http.IsAdmin(actor), form))),
                           service.validator, service.hashPassword, now);
        && service.table.users == UsersAfter(old(service.table.users), old(service.table.nextId),
                                          FromData(Http.FormData(form, WebRole(Http.IsAdmin(actor), form))),
                                          service.validator, service.hashPassword, now)
        && (out.Registered? ==>
              && session.flashes == old(session.flashes) + [Http.Flash(Http.Success, "Usuario registrado exitosamente!")]
              && r == RedirectTo(if Http.IsAdmin(actor) then "app_users" else "app_login"))
        && (out.Rejected? ==>
              && r == RenderAuthPage
              && |session.flashes| == |old(session.flashes)| + |out.errors|
              && session.flashes[..|old(session.flashes)|] == old(session.flashes)
              && forall i :: 0 <= i < |out.errors| ==>
                   session.flashes[|old(session.flashes)| + i] == Http.Flash(Http.Error, out.errors[i]))
    {
      var isAdmin := Http.IsAdmin(actor);
      if !(form.submitted && form.valid) {
        return RenderAuthPage;
      }
      var role := WebRole(isAdmin, form);
      var result := service.Register(FromData(Http.FormData(form, role)), now);
      if result.Registered? {
        session.AddFlash(Http.Success, "Usuario registrado exitosamente!");
        if isAdmin {
          return RedirectTo("app_users");
        }
        return RedirectTo("app_login");
      }
      session.AddErrorFlashes(result.errors);
      r := RenderAuthPage;
    }

    /** `GET /api/auth/me`: nobody logged in is an authentication failure; otherwise one PROFILE_VIEWED entry. */
    method GetCurrentUser(actor: Option<Http.Principal>, now: nat) returns (r: Option<UserSummary>)
      modifies auditLogger
      ensures actor.None? ==> r.None? && auditLogger.entries == old(auditLogger.entries)
      ensures actor.Some? ==>
        && r == Some(Summary(actor.value.user))
        && auditLogger.entries == old(auditLogger.entries) +
             [AuditLogEntry(ProfileViewedAction, Some(actor.value.user.id), None, map[], None, now)]
    {
      if actor.None? {
        return None;
      }
      auditLogger.LogUserAction(actor.value.user, ProfileViewedAction, None, None, now);
      r := Some(Summary(actor.value.user));
    }

    /** `POST /api/auth/login`: nobody logged in is an authentication failure; otherwise one LOGIN_SUCCESS event. */
    method Login(actor: Option<Http.Principal>, now: nat) returns (r: Option<User>)
      modifies auditLogger
      ensures actor.None? ==> r.None? && auditLogger.entries == old(auditLogger.entries)
      ensures actor.Some? ==>
        && r == Some(actor.value.user)
        && auditLogger.entries == old(auditLogger.entries) +
             [AuditLogEntry(LoginSuccessAction, Some(actor.value.user.id), Some(SecurityResource), map[], None, now)]
    {
      if actor.None? {
        return None;
      }
      auditLogger.LogSecurityEvent(LoginSuccessAction, Some(actor.value.user), None, now);
      r := Some(actor.value.user);
    }
  }
}
