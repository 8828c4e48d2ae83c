/**
 * The inventory permission policy: a voter that decides the four inventory
 * attributes by testing one literal role each, with no role hierarchy.
 */
module InventoryVoter {
  import opened Wrappers
  import Roles

  const View: string := "VIEW_INVENTORY"
  const Edit: string := "EDIT_INVENTORY"
  const Delete: string := "DELETE_INVENTORY"
  const Create: string := "CREATE_INVENTORY"

  const Attributes: seq<string> := [View, Edit, Delete, Create]

  /** An inventory item; one built with `new` and never saved has no id. */
  datatype InventoryItem = InventoryItem(id: Option<nat>)

  /** What a permission check is asked about: nothing, an inventory item, or an object of another class. */
  datatype Subject = NoSubject | Item(item: InventoryItem) | Foreign

  /** The token's user: an application `User`, some other user object, or nobody. */
  datatype TokenUser = AppUser(id: nat) | ForeignUser | Anonymous

  /** The three answers of a voter. */
  datatype Vote = Granted | Abstain | Denied

  /** The literal role each attribute demands (the policy's decision table). */
  function RequiredRole(attribute: string): string
    requires attribute in Attributes
  {
    if attribute == View then Roles.RoleUser
    else if attribute == Delete then Roles.RoleAdmin
    else Roles.RoleInventoryManager
  }

  predicate Supports(attribute: string, subject: Subject) {
    attribute in Attributes && (subject.Item? || subject.NoSubject?)
  }

  predicate CanView(held: set<string>) { Roles.RoleUser in held }

  /** Editing does not look at the item it is given. */
  predicate CanEdit(held: set<string>, item: Option<InventoryItem>) { Roles.RoleInventoryManager in held }

  predicate CanDelete(held: set<string>) { Roles.RoleAdmin in held }

  predicate CanCreate(held: set<string>) { Roles.RoleInventoryManager in held }

  /**
   * The decision on a supported attribute; `held` is the set of roles the
   * ambient security context grants. The switch covers every supported
   * attribute, so the source's unreachable `LogicException` has no counterpart.
   */
  predicate VoteOnAttribute(attribute: string, subject: Subject, user: TokenUser, held: set<string>)
    requires Supports(attribute, subject)
  {
    if !user.AppUser? then false
    else if attribute == View then CanView(held)
    else if attribute == Edit then CanEdit(held, if subject.Item? then Some(subject.item) else None)
    else if attribute == Delete then CanDelete(held)
    else CanCreate(held)
  }

  /** One vote on one attribute: abstain when unsupported, otherwise grant or deny. */
  function Decide(attribute: string, subject: Subject, user: TokenUser, held: set<string>): (v: Vote)
    ensures v == Abstain <==> !Supports(attribute, subject)
    ensures v == Granted <==>
      attribute in Attributes && !subject.Foreign? && user.AppUser? && RequiredRole(attribute) in held
  {
    if !Supports(attribute, subject) then Abstain
    else if VoteOnAttribute(attribute, subject, user, held) then Granted
    else Denied
  }

  /** An attribute outside the four is never this voter's business. */
  lemma UnknownAttributeAbstains(attribute: string, subject: Subject, user: TokenUser, held: set<string>)
    requires attribute !in Attributes
    ensures Decide(attribute, subject, user, held) == Abstain
  {
  }

  /** A subject that is neither null nor an inventory item is never this voter's business. */
  lemma ForeignSubjectAbstains(attribute: string, user: TokenUser, held: set<string>)
    ensures Decide(attribute, Foreign, user, held) == Abstain
  {
  }

  /** Without an application user the vote on a supported pair is a denial, never an abstention. */
  lemma NonAppUserDenied(attribute: string, subject: Subject, user: TokenUser, held: set<string>)
    requires Supports(attribute, subject) && !user.AppUser?
    ensures Decide(attribute, subject, user, held) == Denied
  {
  }

  /** The decision table, one literal role per attribute, both directions. */
  lemma DecisionTable(subject: Subject, id: nat, held: set<string>)
    requires !subject.Foreign?
    ensures Decide(View, subject, AppUser(id), held) == Granted <==> Roles.RoleUser in held
    ensures Decide(Edit, subject, AppUser(id), held) == Granted <==> Roles.RoleInventoryManager in held
    ensures Decide(Create, subject, AppUser(id), held) == Granted <==> Roles.RoleInventoryManager in held
    ensures Decide(Delete, subject, AppUser(id), held) == Granted <==> Roles.RoleAdmin in held
  {
  }

  /** On a supported pair the vote does not depend on which item, if any, is passed. */
  lemma SubjectIrrelevant(attribute: string, s1: Subject, s2: Subject, user: TokenUser, held: set<string>)
    requires Supports(attribute, s1) && Supports(attribute, s2)
    ensures Decide(attribute, s1, user, held) == Decide(attribute, s2, user, held)
  {
  }

  /** Holding only ROLE_ADMIN grants deletion but not viewing, editing or creating. */
  lemma AdminAloneOnlyDeletes(id: nat)
    ensures Decide(Delete, NoSubject, AppUser(id), {Roles.RoleAdmin}) == Granted
    ensures Decide(View, NoSubject, AppUser(id), {Roles.RoleAdmin}) == Denied
    ensures Decide(Edit, NoSubject, AppUser(id), {Roles.RoleAdmin}) == Denied
    ensures Decide(Create, NoSubject, AppUser(id), {Roles.RoleAdmin}) == Denied
  {
  }

  /**
   * The access decision manager's default (affirmative) strategy: access is
   * granted when some voter grants; abstentions alone deny.
   */
  predicate AccessGranted(votes: seq<Vote>) {
    exists i :: 0 <= i < |votes| && votes[i] == Granted
  }

  /** With every other voter abstaining, access follows this voter's vote exactly. */
  lemma {:induction false} AccessFollowsVoter(v: Vote, others: seq<Vote>)
    requires forall i :: 0 <= i < |others| ==> others[i] == Abstain
    ensures AccessGranted([v] + others) <==> v == Granted
  {
    var votes := [v] + others;
    if v == Granted {
      assert votes[0] == Granted;
    } else {
      forall i | 0 <= i < |votes|
        ensures votes[i] != Granted
      {
        if i > 0 {
          assert votes[i] == others[i - 1];
        }
      }
    }
  }
}
