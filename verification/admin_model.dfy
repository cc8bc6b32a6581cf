/** The Admin collection's record (src/models/Admin.js): its role enum with default
    "admin", optional company and invite references, the same four sparse unique indexes
    as users, and a pre-save hook that also skips an empty password. */
module AdminModel {
  import opened Prelude
  import opened Accounts

  type CompanyId = nat
  type InviteId = nat

  datatype AdminRole = Superadmin | TenantAdmin

  function AdminRoleName(r: AdminRole): string {
    match r
    case Superadmin => "superadmin"
    case TenantAdmin => "admin"
  }

  /** The role a created admin gets: "admin" by default, otherwise the supplied value if
      the enum admits it; None when validation rejects it. */
  function AdminRoleOnCreate(role: Option<string>): (r: Option<AdminRole>)
    ensures role.None? ==> r == Some(TenantAdmin)
    ensures r.Some? && role.Some? ==> AdminRoleName(r.value) == role.value
    ensures role.Some? ==> (r.Some? <==> role.value == "superadmin" || role.value == "admin")
  {
    match role
    case None => Some(TenantAdmin)
    case Some(s) =>
      if s == "superadmin" then Some(Superadmin)
      else if s == "admin" then Some(TenantAdmin)
      else None
  }

  datatype AdminDoc = AdminDoc(
    email: Option<string>,
    name: Option<string>,
    password: Option<Secret>,
    role: AdminRole,
    company: Option<CompanyId>,
    invite: Option<InviteId>,
    hubspotId: Option<string>,
    zohoId: Option<string>,
    hubspotToken: Option<string>,
    zohoToken: Option<string>,
    linkedinId: Option<string>,
    linkedinName: Option<string>,
    linkedinToken: Option<string>,
    linkedinRefreshToken: Option<string>,
    linkedinProfilePic: Option<string>)

  /** A new admin: only the given fields set, no company or invite reference. */
  function NewAdmin(email: Option<string>, name: Option<string>, password: Option<Secret>,
                    role: AdminRole): (a: AdminDoc)
    ensures a.company.None? && a.invite.None?
    ensures AdminKeys(a) == Keys(email, None, None, None)
  {
    AdminDoc(email, name, password, role, None, None, None, None, None, None, None, None,
             None, None, None)
  }

  function AdminKeys(a: AdminDoc): Keys {
    Keys(a.email, a.hubspotId, a.zohoId, a.linkedinId)
  }

  /** A password value that is JavaScript-truthy: set and not the empty string. */
  predicate HasPassword(p: Option<Secret>) {
    p.Some? && p.value != Plain("")
  }

  /** The admin pre-save hook: hashes the password only when one is set, non-empty and
      modified; otherwise the document is saved as it is. It never fails. */
  function AdminPreSave(a: AdminDoc, modified: bool, salt: nat): (r: AdminDoc)
    ensures r.(password := a.password) == a
    ensures !HasPassword(a.password) || !modified ==> r == a
    ensures HasPassword(a.password) && modified ==> r.password == Some(Hashed(a.password.value, salt))
  {
    if !HasPassword(a.password) || !modified then a
    else a.(password := Some(Hashed(a.password.value, salt)))
  }

  /** An admin saved with a modified, non-empty plain password stores its hash, which
      accepts that password; a hook run never produces a plain password from a hash. */
  lemma AdminPreSaveKeepsAtRest(a: AdminDoc, modified: bool, salt: nat)
    requires AtRest(a.password) || (modified && a.password.Some? && a.password.value != Plain(""))
    ensures AtRest(AdminPreSave(a, modified, salt).password)
    ensures a.password.Some? && a.password.value.Plain? && a.password.value != Plain("") && modified ==>
      Compare(a.password.value.text, AdminPreSave(a, modified, salt).password.value)
  {
  }

  /** Where the two hooks differ: an admin whose password was modified to `undefined` or
      to "" saves unchanged, while the user hook fails on `undefined`. */
  lemma AdminHookSkipsMissingPassword(a: AdminDoc, salt: nat)
    requires !HasPassword(a.password)
    ensures AdminPreSave(a, true, salt) == a
  {
  }
}
