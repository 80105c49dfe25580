/*
 * The role names stored on a user record and the guards the controllers
 * build from them. Most controllers compare with `equalsIgnoreCase`, the
 * user-management controller compares with `equals`; both spellings are kept.
 */
module Roles {
  import opened Base
  import opened JavaStrings

  const SUPERADMIN := "superadmin"
  const ADMIN := "admin"
  const TECHNICIEN := "technicien"

  /** The role, lower-cased, is `lower`; for a lower-case `lower` this is `equalsIgnoreCase` (see below). */
  predicate NamesRole(role: Option<string>, lower: string)
  {
    role.Some? && ToLower(role.value) == lower
  }

  /** `"superadmin".equalsIgnoreCase(role)`, false for a missing role. */
  predicate IsSuperAdmin(role: Option<string>)
  {
    NamesRole(role, SUPERADMIN)
  }

  /** `"superadmin".equals(role)`: the exact spelling only. */
  predicate IsSuperAdminExact(role: Option<string>)
  {
    role == Some(SUPERADMIN)
  }

  /** Who may create a ticket: a superadmin or a technician, in any case. */
  predicate MayCreateTicket(role: Option<string>)
  {
    NamesRole(role, SUPERADMIN) || NamesRole(role, TECHNICIEN)
  }

  /** A string without upper-case letters is its own lower case. */
  lemma {:induction false} LowerCaseIsFixed(s: string)
    requires forall c :: c in s ==> !('A' <= c <= 'Z')
    ensures ToLower(s) == s
  {
    if s != [] {
      assert s[0] in s;
      assert forall c :: c in s[1..] ==> c in s;
      LowerCaseIsFixed(s[1..]);
    }
  }

  /** The superadmin role name is written in lower case. */
  lemma SuperAdminIsLowerCase()
    ensures ToLower(SUPERADMIN) == SUPERADMIN
  {
    LowerCaseIsFixed(SUPERADMIN);
  }

  /** The three role names differ. */
  lemma RoleNamesDistinct()
    ensures ADMIN != SUPERADMIN && ADMIN != TECHNICIEN && TECHNICIEN != SUPERADMIN
  {
    assert |ADMIN| != |SUPERADMIN| && |ADMIN| != |TECHNICIEN|;
    assert TECHNICIEN[0] != SUPERADMIN[0];
  }

  /**
   * The ticket-creation guard, read through `equalsIgnoreCase`: it admits
   * exactly the superadmin and technician roles, in any case.
   */
  lemma TicketGuardRule(role: Option<string>)
    ensures MayCreateTicket(role) <==> role.Some? && (EqualsIgnoreCase(role.value, SUPERADMIN)
                                                      || EqualsIgnoreCase(role.value, TECHNICIEN))
  {
    SuperAdminIsLowerCase();
    TechnicienIsLowerCase();
  }

  /** An admin, whatever the case of its role, may not create a ticket. */
  lemma AdminMayNotCreateTicket(role: Option<string>)
    ensures NamesRole(role, ADMIN) ==> !MayCreateTicket(role)
  {
    RoleNamesDistinct();
  }

  /** The technician role name is written in lower case. */
  lemma TechnicienIsLowerCase()
    ensures ToLower(TECHNICIEN) == TECHNICIEN
  {
    LowerCaseIsFixed(TECHNICIEN);
  }

  /** Comparing the lower-cased role with a lower-case name is `equalsIgnoreCase`. */
  lemma NamesRoleIsEqualsIgnoreCase(role: Option<string>, lower: string)
    requires ToLower(lower) == lower
    ensures NamesRole(role, lower) <==> role.Some? && EqualsIgnoreCase(role.value, lower)
  {
  }

  /** The superadmin guard accepts exactly the roles equal to "superadmin" ignoring case. */
  lemma IsSuperAdminIgnoresCase(role: Option<string>)
    ensures IsSuperAdmin(role) <==> role.Some? && EqualsIgnoreCase(role.value, SUPERADMIN)
  {
    SuperAdminIsLowerCase();
  }

  /** The exact guard is the stricter one: it implies the case-blind one, and "Superadmin" separates them. */
  lemma ExactGuardIsStricter(role: Option<string>)
    ensures IsSuperAdminExact(role) ==> IsSuperAdmin(role)
    ensures IsSuperAdmin(Some("Superadmin")) && !IsSuperAdminExact(Some("Superadmin"))
  {
    SuperAdminIsLowerCase();
    var u := "Superadmin";
    var rest := "uperadmin";
    assert u[1..] == rest;
    LowerCaseIsFixed(rest);
    assert ToLower(u) == [LowerChar(u[0])] + ToLower(rest);
    assert ToLower(u) == SUPERADMIN;
    assert u != SUPERADMIN by { assert u[0] != SUPERADMIN[0]; }
  }
}
