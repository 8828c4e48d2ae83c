/**
 * What the controllers read from and write to the framework: the ambient
 * security context (who is logged in and which roles `isGranted` confirms)
 * and the session's flash bag.
 */
module Http {
  import opened Wrappers
  import Roles
  import Users

  /** An authenticated user together with the roles the security context grants them. */
  datatype Principal = Principal(user: Users.User, granted: set<string>)

  /** `isGranted(role)` against the ambient security context; nobody logged in holds nothing. */
  predicate IsGranted(actor: Option<Principal>, role: string) {
    actor.Some? && role in actor.value.granted
  }

  predicate IsAdmin(actor: Option<Principal>) {
    IsGranted(actor, Roles.RoleAdmin)
  }

  /**
   * The submitted registration form: whether it was submitted and passed the
   * form's own validation, whether it has a `roles` field, and each field's data.
   */
  datatype RegistrationForm = RegistrationForm(
    submitted: bool, valid: bool, hasRoles: bool, roles: Option<string>,
    email: Option<string>, plainPassword: Option<string>, firstName: Option<string>, lastName: Option<string>)

  /** The raw map both registration controllers build from the form, with the role already chosen. */
  function FormData(form: RegistrationForm, role: string): map<string, Option<string>> {
    map["email" := form.email, "password" := form.plainPassword,
        "firstName" := form.firstName, "lastName" := form.lastName, "role" := Some(role)]
  }

  datatype FlashKind = Success | Error

  datatype Flash = Flash(kind: FlashKind, message: string)

  /** The session's flash bag: messages shown once on the next page. */
  class Session {
    var flashes: seq<Flash>

    constructor ()
      ensures flashes == []
    {
      flashes := [];
    }

    method AddFlash(kind: FlashKind, message: string)
      modifies this
      ensures flashes == old(flashes) + [Flash(kind, message)]
    {
      flashes := flashes + [Flash(kind, message)];
    }

    /** The controllers' `foreach ($errors as $error) addFlash('error', $error)`. */
    method AddErrorFlashes(errors: seq<string>)
      modifies this
      ensures |flashes| == |old(flashes)| + |errors|
      ensures flashes[..|old(flashes)|] == old(flashes)
      ensures forall i :: 0 <= i < |errors| ==> flashes[|old(flashes)| + i] == Flash(Error, errors[i])
    {
      var i := 0;
      while i < |errors|
        invariant 0 <= i <= |errors|
        invariant |flashes| == |old(flashes)| + i
        invariant flashes[..|old(flashes)|] == old(flashes)
        invariant forall k :: 0 <= k < i ==> flashes[|old(flashes)| + k] == Flash(Error, errors[k])
      {
        AddFlash(Error, errors[i]);
        i := i + 1;
      }
    }
  }
}
