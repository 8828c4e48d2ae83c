/**
 * The inventory API: each endpoint asks the access decision manager for
 * one voter attribute, then answers with a fixed message.
 */
module InventoryController {
  import opened Wrappers
  import opened InventoryVoter
  import Roles
  import Http

  datatype Endpoint = ListItems | CreateItem | EditItem(id: int) | DeleteItem(id: int)

  /** The attribute and subject an endpoint passes to `denyAccessUnlessGranted`. */
  datatype Check = Check(attribute: string, subject: Subject)

  datatype Response = Json(status: nat, message: string) | AccessDenied

  /** Edit checks against a freshly built, unsaved item, whatever id the route carries. */
  function Guard(ep: Endpoint): Check {
    match ep
    case ListItems => Check(View, NoSubject)
    case CreateItem => Check(Create, NoSubject)
    case EditItem(_) => Check(Edit, Item(InventoryItem(None)))
    case DeleteItem(_) => Check(Delete, NoSubject)
  }

  function Reply(ep: Endpoint): Response {
    match ep
    case ListItems => Json(200, "Acceso permitido a inventario")
    case CreateItem => Json(201, "Item creado")
    case EditItem(_) => Json(200, "Item editado")
    case DeleteItem(_) => Json(200, "Item eliminado")
  }

  function TokenUserOf(actor: Option<Http.Principal>): TokenUser {
    if actor.Some? then AppUser(actor.value.user.id) else Anonymous
  }

  function HeldRoles(actor: Option<Http.Principal>): set<string> {
    if actor.Some? then actor.value.granted else {}
  }

  /** Runs the guard (this voter's vote under the affirmative strategy), then replies. */
  function Handle(ep: Endpoint, actor: Option<Http.Principal>): (r: Response)
    ensures r.Json? <==> Decide(Guard(ep).attribute, Guard(ep).subject, TokenUserOf(actor), HeldRoles(actor)) == Granted
    ensures r.Json? ==> r.status == if ep.CreateItem? then 201 else 200
  {
    var check := Guard(ep);
    var vote := Decide(check.attribute, check.subject, TokenUserOf(actor), HeldRoles(actor));
    AccessFollowsVoter(vote, []);
    if AccessGranted([vote]) then Reply(ep) else AccessDenied
  }

  /** Every endpoint's check is one this voter supports, so it is never left to abstentions. */
  lemma GuardsSupported(ep: Endpoint)
    ensures Supports(Guard(ep).attribute, Guard(ep).subject)
    ensures ep.EditItem? <==> Guard(ep).subject.Item?
  {
  }

  /** Which role opens which endpoint for a logged-in user; nobody logged in is always refused. */
  lemma EndpointAccess(ep: Endpoint, actor: Option<Http.Principal>)
    ensures actor.None? ==> Handle(ep, actor) == AccessDenied
    ensures actor.Some? ==>
      (Handle(ep, actor).Json? <==>
        match ep
        case ListItems => Roles.RoleUser in actor.value.granted
        case CreateItem => Roles.RoleInventoryManager in actor.value.granted
        case EditItem(_) => Roles.RoleInventoryManager in actor.value.granted
        case DeleteItem(_) => Roles.RoleAdmin in actor.value.granted)
  {
  }

  /** Editing any id is decided the same way. */
  lemma EditIgnoresId(a: int, b: int, actor: Option<Http.Principal>)
    ensures Handle(EditItem(a), actor) == Handle(EditItem(b), actor)
  {
  }
}
