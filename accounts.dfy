/**
 * Users and their single role (app/Models/User.php). A user is held with its
 * role already loaded: `role.id` is the user's `role_id`.
 */
module Accounts {

  const ADMIN: string := "Admin"
  const WAREHOUSE_MANAGER: string := "Warehouse Manager"
  const STAFF: string := "Staff"
  const CUSTOMER: string := "Customer"

  datatype Role = Role(id: nat, name: string)

  datatype User = User(id: nat, role: Role, createdAt: int) {

    /** Strict string equality with the name of the user's one role. */
    predicate HasRole(roleName: string) { role.name == roleName }

    predicate IsAdmin() { HasRole(ADMIN) }
    predicate IsWarehouseManager() { HasRole(WAREHOUSE_MANAGER) }
    predicate IsStaff() { HasRole(STAFF) }
    predicate IsCustomer() { HasRole(CUSTOMER) }
  }

  /** A user holds exactly one role name: the only name `HasRole` accepts is the role's own. */
  lemma OneRoleName(u: User, roleName: string)
    ensures u.HasRole(u.role.name)
    ensures u.HasRole(roleName) ==> roleName == u.role.name
  {
  }

  /** The four role predicates test four distinct names, so at most one of them holds. */
  lemma AtMostOneRole(u: User)
    ensures u.IsAdmin() ==> !u.IsWarehouseManager() && !u.IsStaff() && !u.IsCustomer()
    ensures u.IsWarehouseManager() ==> !u.IsStaff() && !u.IsCustomer()
    ensures u.IsStaff() ==> !u.IsCustomer()
  {
    assert ADMIN[0] != WAREHOUSE_MANAGER[0] && ADMIN[0] != STAFF[0] && ADMIN[0] != CUSTOMER[0];
    assert WAREHOUSE_MANAGER[0] != STAFF[0] && WAREHOUSE_MANAGER[0] != CUSTOMER[0];
    assert STAFF[0] != CUSTOMER[0];
  }

  /** Role rows have distinct ids and distinct names. */
  predicate RolesWellFormed(roles: seq<Role>)
  {
    forall i, j :: 0 <= i < j < |roles| ==> roles[i].id != roles[j].id && roles[i].name != roles[j].name
  }

  /** User rows have distinct ids, and every user's role is a row of the role table. */
  predicate UsersWellFormed(users: seq<User>, roles: seq<Role>)
  {
    && (forall i, j :: 0 <= i < j < |users| ==> users[i].id != users[j].id)
    && (forall u :: u in users ==> u.role in roles)
  }
}
