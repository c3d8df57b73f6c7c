/** Statuses and role assignments that accounts, memberships and organizations share. */
module Tenancy {
  import opened Wrappers

  type Id = nat

  /** An account's or a membership's status; a membership is never `Deactivated`. */
  datatype Status = Active | PendingApproval | Blocked | Suspended | Deactivated

  /** A role held by a user in one organization. */
  datatype Assignment = Assignment(user: Id, org: Id, role: Id)

  /** A role of one organization, and the permissions it carries. */
  datatype Role = Role(org: Id, keys: set<string>)

  const SUPERUSER := "superuser"

  function Get<K, V>(m: map<K, V>, k: K): Option<V> { if k in m then Some(m[k]) else None }
}
