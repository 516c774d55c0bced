/**
 `get_user_warehouse_permissions`: five boolean permissions computed from
 the user's role set. The role set is an input; reading the session user and
 `frappe.get_roles` are not part of this model. The role that grants warehouse
 viewing is spelt "Wareprise User" in the code, so "Warehouse User" alone
 does not grant it.
 */
module WarehousePermissions {
  datatype Permissions = Permissions(
    canViewWarehouse: bool,
    canManagePickTasks: bool,
    canManageAssessments: bool,
    canViewReports: bool,
    isWarehouseManager: bool)

  /** One permission, to describe the map as a role-by-role table. */
  datatype Flag = ViewWarehouse | ManagePickTasks | ManageAssessments | ViewReports | WarehouseManager

  const AllFlags: set<Flag> := {ViewWarehouse, ManagePickTasks, ManageAssessments, ViewReports, WarehouseManager}

  /** The roles the map looks at; every other role grants nothing. */
  const KnownRoles: set<string> := {"System Manager", "Wareprise User", "Warehouse Manager", "Quality Manager", "Warehouse User"}

  /** The reference table: what one role grants on its own. */
  function RoleGrants(role: string): set<Flag> {
    if role == "System Manager" then AllFlags
    else if role == "Wareprise User" then {ViewWarehouse}
    else if role == "Warehouse Manager" then {ManagePickTasks, WarehouseManager}
    else if role == "Quality Manager" then {ManageAssessments}
    else if role == "Warehouse User" then {ViewReports}
    else {}
  }

  /** Everything some role of the set grants. */
  function GrantedByRoles(roles: set<string>): set<Flag> {
    set r, f | r in roles && f in RoleGrants(r) :: f
  }

  /** The flags a permission record switches on. */
  function Granted(p: Permissions): (s: set<Flag>)
    ensures s <= AllFlags
  {
    (if p.canViewWarehouse then {ViewWarehouse} else {})
    + (if p.canManagePickTasks then {ManagePickTasks} else {})
    + (if p.canManageAssessments then {ManageAssessments} else {})
    + (if p.canViewReports then {ViewReports} else {})
    + (if p.isWarehouseManager then {WarehouseManager} else {})
  }

  function UserWarehousePermissions(roles: set<string>): (p: Permissions)
    ensures p.canManagePickTasks == p.isWarehouseManager
    ensures "System Manager" in roles ==> Granted(p) == AllFlags
  {
    var admin := "System Manager" in roles;
    Permissions(
      "Wareprise User" in roles || admin,
      "Warehouse Manager" in roles || admin,
      "Quality Manager" in roles || admin,
      "Warehouse User" in roles || admin,
      "Warehouse Manager" in roles || admin)
  }

  /** The map grants a permission exactly when some role of the set grants it in the table. */
  lemma PermissionsMatchRoleTable(roles: set<string>)
    ensures Granted(UserWarehousePermissions(roles)) == GrantedByRoles(roles)
  {
    var p := UserWarehousePermissions(roles);
    forall f: Flag
      ensures f in Granted(p) <==> f in GrantedByRoles(roles)
    {
      if f in Granted(p) {
        var r :| r in roles && r in KnownRoles && f in RoleGrants(r) by {
          if "System Manager" in roles {
            assert f in RoleGrants("System Manager");
          } else {
            match f
            case ViewWarehouse => assert f in RoleGrants("Wareprise User");
            case ManagePickTasks => assert f in RoleGrants("Warehouse Manager");
            case WarehouseManager => assert f in RoleGrants("Warehouse Manager");
            case ManageAssessments => assert f in RoleGrants("Quality Manager");
            case ViewReports => assert f in RoleGrants("Warehouse User");
          }
        }
        assert f in GrantedByRoles(roles);
      }
      if f in GrantedByRoles(roles) {
        var r :| r in roles && f in RoleGrants(r);
      }
    }
  }

  /** More roles never take a permission away. */
  lemma PermissionsMonotone(a: set<string>, b: set<string>)
    requires a <= b
    ensures Granted(UserWarehousePermissions(a)) <= Granted(UserWarehousePermissions(b))
  {
    PermissionsMatchRoleTable(a);
    PermissionsMatchRoleTable(b);
  }

  /** Roles outside the five the map names make no difference. */
  lemma OnlyKnownRolesMatter(a: set<string>, b: set<string>)
    requires a * KnownRoles == b * KnownRoles
    ensures UserWarehousePermissions(a) == UserWarehousePermissions(b)
  {
    forall r | r in KnownRoles
      ensures r in a <==> r in b
    {
      assert r in a <==> r in a * KnownRoles;
      assert r in b <==> r in b * KnownRoles;
    }
  }

  /** A user holding none of the five roles gets no permission at all. */
  lemma UnknownRolesGrantNothing(roles: set<string>)
    requires roles * KnownRoles == {}
    ensures Granted(UserWarehousePermissions(roles)) == {}
  {
    OnlyKnownRolesMatter(roles, {});
  }

  /** The "Warehouse User" role on its own grants the reports but not warehouse viewing. */
  lemma WarehouseUserCannotViewWarehouse()
    ensures UserWarehousePermissions({"Warehouse User"}) == Permissions(false, false, false, true, false)
  {
  }
}
