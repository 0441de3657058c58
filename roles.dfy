/**
 * Role derivation (`get_role` in app.py): the access tier of a user is read
 * off a three-character suffix of the username.
 */
module Roles {
  import opened Wrappers

  /** The three access tiers. */
  datatype Role = Customer | BankCashier | DiscoEmployee {

    /** The role string the application returns for this tier. */
    function Name(): string
    {
      match this
      case Customer => "customer"
      case BankCashier => "bank_cashier"
      case DiscoEmployee => "disco_employee"
    }

    /** The username suffix that selects this tier. */
    function Suffix(): string
    {
      match this
      case Customer => "_u1"
      case BankCashier => "_u2"
      case DiscoEmployee => "_u3"
    }
  }

  /** Python's `s.endswith(suffix)`. */
  predicate EndsWith(s: string, suffix: string)
  {
    |suffix| <= |s| && s[|s| - |suffix|..] == suffix
  }

  /**
   * `get_role`: the suffixes are tested in the order `_u1`, `_u2`, `_u3`;
   * a username with none of them has no role (the function falls off its
   * end and returns `None`).
   */
  function GetRole(username: string): (r: Option<Role>)
    ensures r.Some? <==> EndsWith(username, "_u1") || EndsWith(username, "_u2") || EndsWith(username, "_u3")
    ensures r.Some? ==> EndsWith(username, r.value.Suffix())
  {
    if EndsWith(username, "_u1") then Some(Customer)
    else if EndsWith(username, "_u2") then Some(BankCashier)
    else if EndsWith(username, "_u3") then Some(DiscoEmployee)
    else None
  }

  /** No username ends with two different role suffixes, so the order of the tests is immaterial. */
  lemma SuffixesExclusive(username: string, a: Role, b: Role)
    requires EndsWith(username, a.Suffix()) && EndsWith(username, b.Suffix())
    ensures a == b
  {
    var n := |username|;
    assert username[n - 1] == a.Suffix()[2] by { assert username[n - 3..][2] == username[n - 1]; }
    assert username[n - 1] == b.Suffix()[2] by { assert username[n - 3..][2] == username[n - 1]; }
  }

  /** A username gets role `role` exactly when it ends with that role's suffix. */
  lemma GetRoleIsSuffix(username: string, role: Role)
    ensures GetRole(username) == Some(role) <==> EndsWith(username, role.Suffix())
  {
    if EndsWith(username, role.Suffix()) {
      SuffixesExclusive(username, GetRole(username).value, role);
    }
  }

  /** Appending a role's suffix to any name yields that role. */
  lemma RoleOfSuffixedName(base: string, role: Role)
    ensures GetRole(base + role.Suffix()) == Some(role)
  {
    var u := base + role.Suffix();
    assert u[|u| - 3..] == role.Suffix();
    GetRoleIsSuffix(u, role);
  }

  /** The strings `get_role` returns for the three suffixes. */
  lemma RoleStringOfSuffixedName(base: string)
    ensures GetRole(base + "_u1").Some? && GetRole(base + "_u1").value.Name() == "customer"
    ensures GetRole(base + "_u2").Some? && GetRole(base + "_u2").value.Name() == "bank_cashier"
    ensures GetRole(base + "_u3").Some? && GetRole(base + "_u3").value.Name() == "disco_employee"
  {
    RoleOfSuffixedName(base, Customer);
    RoleOfSuffixedName(base, BankCashier);
    RoleOfSuffixedName(base, DiscoEmployee);
  }

  /** A username gets a role only if it is some name followed by that role's suffix. */
  lemma RoleMeansSuffixedName(username: string)
    requires GetRole(username).Some?
    ensures |username| >= 3
    ensures username == username[..|username| - 3] + GetRole(username).value.Suffix()
  {
    var n := |username|;
    assert username == username[..n - 3] + username[n - 3..];
  }
}
