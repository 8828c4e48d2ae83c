/** The closed role vocabulary shared by registration, the inventory voter and the user pages. */
module Roles {

  const RoleUser: string := "ROLE_USER"
  const RoleInventoryManager: string := "ROLE_INVENTORY_MANAGER"
  const RoleManager: string := "ROLE_MANAGER"
  const RoleAdmin: string := "ROLE_ADMIN"

  /** The roles a registration may request, in the order the choice constraint lists them. */
  const KnownRoles: seq<string> := [RoleUser, RoleInventoryManager, RoleManager, RoleAdmin]
}
