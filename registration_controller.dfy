/**
 * The web registration page: logged-in non-admins are sent home; a valid
 * form is registered with ROLE_USER or, for an admin, the selected role.
 */
module RegistrationController {
  import opened Wrappers
  import opened RegisterUserDto
  import opened UserRegistrationService
  import Roles
  import Http

  const RegisteredMessage: string := "Usuario registrado exitosamente!"

  datatype PageResponse = RedirectTo(route: string) | RenderRegisterPage

  /** The role to register: an admin's selection (`?? 'ROLE_USER'`) when the form has a roles field, else ROLE_USER. */
  function SelectedRole(isAdmin: bool, form: Http.RegistrationForm): (role: string)
    ensures !isAdmin || !form.hasRoles ==> role == Roles.RoleUser
    ensures isAdmin && form.hasRoles ==> role == form.roles.GetOr(Roles.RoleUser)
  {
    if isAdmin && form.hasRoles then form.roles.GetOr(Roles.RoleUser) else Roles.RoleUser
  }

  /** Where a successful registration leads: the user list for an admin, the login page otherwise. */
  function SuccessRoute(isAdmin: bool): (route: string)
    ensures route == "app_users" <==> isAdmin
    ensures route == "app_login" <==> !isAdmin
  {
    if isAdmin then "app_users" else "app_login"
  }

  /** A non-admin's selection never matters: whatever they pick, they register as ROLE_USER. */
  lemma NonAdminRegistersAsUser(form1: Http.RegistrationForm, form2: Http.RegistrationForm)
    ensures SelectedRole(false, form1) == SelectedRole(false, form2) == Roles.RoleUser
  {
  }

  /**
   * `??` only replaces null: an admin's empty selection is registered as the
   * role "", which the choice constraint then rejects.
   */
  lemma EmptySelectionIsInvalidRole(form: Http.RegistrationForm, cfg: ValidatorConfig)
    requires form.hasRoles && form.roles == Some("")
    ensures SelectedRole(true, form) == ""
    ensures RoleInvalid in Validate(FromData(Http.FormData(form, SelectedRole(true, form))), cfg)
  {
    var dto := FromData(Http.FormData(form, SelectedRole(true, form)));
    assert dto.role == "";
    RoleChoiceRule(dto, cfg);
  }

  /** `register`: the page's gates, then registration, flashes and redirect. */
  method Register(
    actor: Option<Http.Principal>, form: Http.RegistrationForm, service: RegistrationService,
    session: Http.Session, now: nat)
    returns (r: PageResponse)
    requires service.Valid()
    modifies service.table, session
    ensures service.Valid()
    ensures service.table.nextId ==
      if r.RedirectTo? && r.route != "app_home" then old(service.table.nextId) + 1 else old(service.table.nextId)
    ensures actor.Some? && !Http.IsAdmin(actor) ==>
      r == RedirectTo("app_home") && service.table.users == old(service.table.users) && session.flashes == old(session.flashes)
    ensures (actor.None? || Http.IsAdmin(actor)) && !(form.submitted && form.valid) ==>
      r == RenderRegisterPage && service.table.users == old(service.table.users) && session.flashes == old(session.flashes)
    ensures (actor.None? || Http.IsAdmin(actor)) && form.submitted && form.valid ==>
      var dto := FromData(Http.FormData(form, SelectedRole(Http.IsAdmin(actor), form)));
      var out := Outcome(old(service.table.users), old(service.table.nextId), dto, service.validator, service.hashPassword, now);
      && service.table.users == UsersAfter(old(service.table.users), old(service.table.nextId), dto,
                                        service.validator, service.hashPassword, now)
      && (out.Registered? ==>
            && session.flashes == old(session.flashes) + [Http.Flash(Http.Success, RegisteredMessage)]
            && r == RedirectTo(SuccessRoute(Http.IsAdmin(actor))))
      && (out.Rejected? ==>
            && r == RenderRegisterPage
            && |session.flashes| == |old(session.flashes)| + |out.errors|
            && session.flashes[..|old(session.flashes)|] == old(session.flashes)
            && forall i :: 0 <= i < |out.errors| ==>
                 session.flashes[|old(session.flashes)| + i] == Http.Flash(Http.Error, out.errors[i]))
  {
    if actor.Some? && !Http.IsAdmin(actor) {
      return RedirectTo("app_home");
    }
    var isAdmin := Http.IsAdmin(actor);
    if form.submitted && form.valid {
      var role := SelectedRole(isAdmin, form);
      var result := service.Register(FromData(Http.FormData(form, role)), now);
      if result.Registered? {
        session.AddFlash(Http.Success, RegisteredMessage);
        return RedirectTo(SuccessRoute(isAdmin));
      }
      session.AddErrorFlashes(result.errors);
    }
    r := RenderRegisterPage;
  }
}
