/**
 The caller of a request as the authorization expressions see it: the name
 (`authentication.name`, the token subject), the granted authority strings,
 and whether the caller is authenticated rather than anonymous
 (`isAuthenticated()`).
 */
module Callers {

  datatype Caller = Caller(name: string, authorities: set<string>, authenticated: bool)

  /** The prefix `hasRole` adds and the role converter writes. */
  const RolePrefix: string := "ROLE_"

  /** The caller Spring uses for an unauthenticated request. */
  const Anonymous: Caller := Caller("anonymousUser", {"ROLE_ANONYMOUS"}, false)

  /** `hasRole(role)` checks the authority with the default prefix, which is
      not added a second time to a role that already carries it. */
  function RoleAuthority(role: string): (a: string)
    ensures RolePrefix <= a
    ensures RolePrefix <= role ==> a == role
    ensures !(RolePrefix <= role) ==> a[|RolePrefix|..] == role
  {
    if RolePrefix <= role then role else RolePrefix + role
  }

  predicate HasRole(c: Caller, role: string) {
    RoleAuthority(role) in c.authorities
  }

  predicate IsAdmin(c: Caller) {
    HasRole(c, "ADMIN")
  }

  /** A role named with or without the prefix asks for the same authority, so
      `hasRole('ADMIN')` and `hasRole('ROLE_ADMIN')` grant the same callers. */
  lemma HasRoleIgnoresPrefix(c: Caller, role: string)
    requires !(RolePrefix <= role)
    ensures HasRole(c, role) <==> HasRole(c, RolePrefix + role)
    ensures HasRole(c, RolePrefix + role) <==> RolePrefix + role in c.authorities
  {
    assert RolePrefix <= RolePrefix + role;
    assert RoleAuthority(RolePrefix + role) == RolePrefix + role;
  }

  lemma AdminIsRoleAdmin(c: Caller)
    ensures IsAdmin(c) <==> "ROLE_ADMIN" in c.authorities
  {
    assert RolePrefix[0] != "ADMIN"[0];
    assert RoleAuthority("ADMIN") == "ROLE_ADMIN";
  }
}
