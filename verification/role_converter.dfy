/**
 The Keycloak role converter: the authorities of a request, computed from the
 claims of its verified token.

 The converter starts from the authorities of the default scope converter
 (a foreign library, so they are an input here), then appends one authority
 per realm role and one per role of every client entry of `resource_access`
 whose value is a map holding `"roles"`. The result is a list: nothing is
 de-duplicated, and its order is defaults, realm roles, client roles.
 */
module RoleConverter {
  import opened Wrappers
  import Ascii
  import Callers

  /** The `realm_access` claim: a map that may or may not hold `"roles"`. */
  datatype RealmAccess = RealmAccess(roles: Option<seq<string>>)

  /** The value stored for one client in `resource_access`. */
  datatype ClientAccess = RoleMap(roles: Option<seq<string>>) | NotAMap

  datatype ClientEntry = ClientEntry(clientId: string, access: ClientAccess)

  /** The two claims the converter reads. `resource_access` is given as the
      entries of the JSON object in its iteration order. */
  datatype Claims = Claims(realmAccess: Option<RealmAccess>, resourceAccess: Option<seq<ClientEntry>>)

  /** `"ROLE_" + role.toUpperCase()` */
  function Authority(role: string): (a: string)
    ensures Callers.RolePrefix <= a
    ensures a[|Callers.RolePrefix|..] == Ascii.ToUpper(role)
  {
    Callers.RolePrefix + Ascii.ToUpper(role)
  }

  function RoleAuthorities(roles: seq<string>): (r: seq<string>)
    ensures |r| == |roles|
    ensures forall i :: 0 <= i < |roles| ==> r[i] == Authority(roles[i])
  {
    seq(|roles|, i requires 0 <= i < |roles| => Authority(roles[i]))
  }

  /** The realm roles, when `realm_access` is present and holds `"roles"`. */
  function RealmRoles(claims: Claims): seq<string> {
    match claims.realmAccess
    case Some(RealmAccess(Some(roles))) => roles
    case _ => []
  }

  /** The roles one client entry contributes: none unless its value is a map holding `"roles"`. */
  function EntryRoles(e: ClientEntry): seq<string> {
    match e.access
    case RoleMap(Some(roles)) => roles
    case _ => []
  }

  /** The roles of the client entries, in iteration order. */
  function ClientRoles(entries: seq<ClientEntry>): seq<string> {
    if |entries| == 0 then [] else EntryRoles(entries[0]) + ClientRoles(entries[1..])
  }

  function AllClientRoles(claims: Claims): seq<string> {
    match claims.resourceAccess
    case Some(entries) => ClientRoles(entries)
    case None => []
  }

  /** `KeycloakRoleConverter.convert`: the defaults are kept as a prefix and
      every authority appended carries the role prefix. */
  function Convert(defaults: seq<string>, claims: Claims): (r: seq<string>)
    ensures defaults <= r
    ensures forall i :: |defaults| <= i < |r| ==> Callers.RolePrefix <= r[i]
  {
    defaults + RoleAuthorities(RealmRoles(claims)) + RoleAuthorities(AllClientRoles(claims))
  }

  /** Reference definition: the set of role names the claims grant, read
      directly off the claim structure. */
  ghost function ClaimedRoles(claims: Claims): set<string> {
    (set r | r in RealmRoles(claims))
    + (if claims.resourceAccess.Some? then
         set e, r | e in claims.resourceAccess.value && e.access.RoleMap? && e.access.roles.Some?
                    && r in e.access.roles.value :: r
       else {})
  }

  ghost function GrantedAuthorities(claims: Claims): set<string> {
    set r | r in ClaimedRoles(claims) :: Authority(r)
  }

  lemma RoleAuthoritiesMembership(roles: seq<string>, a: string)
    ensures a in RoleAuthorities(roles) <==> exists r :: r in roles && a == Authority(r)
  {
    var rs := RoleAuthorities(roles);
    if a in rs {
      var i :| 0 <= i < |rs| && rs[i] == a;
      assert roles[i] in roles;
    }
  }

  lemma {:induction false} ClientRolesMembership(entries: seq<ClientEntry>, r: string)
    ensures r in ClientRoles(entries) <==> exists e :: e in entries && r in EntryRoles(e)
  {
    if |entries| > 0 {
      ClientRolesMembership(entries[1..], r);
      assert entries == [entries[0]] + entries[1..];
      if r in ClientRoles(entries) && r !in EntryRoles(entries[0]) {
        var e :| e in entries[1..] && r in EntryRoles(e);
        assert e in entries;
      }
    }
  }

  /** An authority is in the output iff it is a default authority or the
      authority of some realm role or some client role. */
  lemma ConvertMembership(defaults: seq<string>, claims: Claims, a: string)
    ensures a in Convert(defaults, claims) <==> a in defaults || a in GrantedAuthorities(claims)
  {
    var realm := RoleAuthorities(RealmRoles(claims));
    var client := RoleAuthorities(AllClientRoles(claims));
    assert Convert(defaults, claims) == defaults + realm + client;
    RoleAuthoritiesMembership(RealmRoles(claims), a);
    RoleAuthoritiesMembership(AllClientRoles(claims), a);
    if a in client {
      var r :| r in AllClientRoles(claims) && a == Authority(r);
      ClientRolesMembership(claims.resourceAccess.value, r);
      var e :| e in claims.resourceAccess.value && r in EntryRoles(e);
      assert r in ClaimedRoles(claims);
    }
    if a in GrantedAuthorities(claims) {
      var r :| r in ClaimedRoles(claims) && a == Authority(r);
      if r !in RealmRoles(claims) {
        var e :| e in claims.resourceAccess.value && e.access.RoleMap? && e.access.roles.Some?
                 && r in e.access.roles.value;
        assert r in EntryRoles(e);
        ClientRolesMembership(claims.resourceAccess.value, r);
      }
    }
  }

  lemma {:induction false} ClientRolesAppend(xs: seq<ClientEntry>, ys: seq<ClientEntry>)
    ensures ClientRoles(xs + ys) == ClientRoles(xs) + ClientRoles(ys)
  {
    if |xs| > 0 {
      assert (xs + ys)[1..] == xs[1..] + ys;
      ClientRolesAppend(xs[1..], ys);
    } else {
      assert xs + ys == ys;
    }
  }

  /** A `resource_access` entry whose value is not a map, or is a map without
      `"roles"`, contributes no authorities: removing it changes nothing. */
  lemma InertEntryContributesNothing(defaults: seq<string>, realm: Option<RealmAccess>,
                                     before: seq<ClientEntry>, e: ClientEntry, after: seq<ClientEntry>)
    requires e.access.NotAMap? || e.access.roles.None?
    ensures Convert(defaults, Claims(realm, Some(before + [e] + after)))
         == Convert(defaults, Claims(realm, Some(before + after)))
  {
    var with := before + [e] + after;
    ClientRolesAppend(before + [e], after);
    ClientRolesAppend(before, [e]);
    ClientRolesAppend(before, after);
    assert ClientRoles([e]) == EntryRoles(e) + ClientRoles([]) == [];
    assert ClientRoles(with) == ClientRoles(before + after);
    assert AllClientRoles(Claims(realm, Some(with))) == AllClientRoles(Claims(realm, Some(before + after)));
  }

  lemma {:induction false} ClientRolesIgnoreIds(xs: seq<ClientEntry>, ys: seq<ClientEntry>)
    requires |xs| == |ys|
    requires forall i :: 0 <= i < |xs| ==> xs[i].access == ys[i].access
    ensures ClientRoles(xs) == ClientRoles(ys)
  {
    if |xs| > 0 {
      ClientRolesIgnoreIds(xs[1..], ys[1..]);
    }
  }

  /** Client roles are attributed by role name only: renaming the clients of
      `resource_access` leaves the output unchanged. */
  lemma ClientIdIrrelevant(defaults: seq<string>, realm: Option<RealmAccess>,
                           xs: seq<ClientEntry>, ys: seq<ClientEntry>)
    requires |xs| == |ys|
    requires forall i :: 0 <= i < |xs| ==> xs[i].access == ys[i].access
    ensures Convert(defaults, Claims(realm, Some(xs))) == Convert(defaults, Claims(realm, Some(ys)))
  {
    ClientRolesIgnoreIds(xs, ys);
  }

  /** Without realm roles and without `resource_access` the output is exactly the defaults. */
  lemma NoRoleClaimsGivesDefaults(defaults: seq<string>, claims: Claims)
    requires claims.realmAccess.None? || claims.realmAccess.value.roles.None?
    requires claims.resourceAccess.None?
    ensures Convert(defaults, claims) == defaults
  {
  }

  /** Role names that differ only in letter case give the same authority, and
      only such names do. */
  lemma AuthorityIgnoresCase(r1: string, r2: string)
    ensures Authority(r1) == Authority(r2) <==>
              |r1| == |r2| && forall i :: 0 <= i < |r1| ==> Ascii.SameIgnoringCase(r1[i], r2[i])
  {
    Ascii.ToUpperIdentifiesCase(r1, r2);
    if Authority(r1) == Authority(r2) {
      assert Authority(r1)[|Callers.RolePrefix|..] == Authority(r2)[|Callers.RolePrefix|..];
    }
  }

  /** The authentication built from a verified token: its name is the
      subject and its authorities are the converter's output. */
  function TokenCaller(subject: string, defaults: seq<string>, claims: Claims): (c: Callers.Caller)
    ensures c.name == subject && c.authenticated
    ensures forall a :: a in c.authorities <==> a in defaults || a in GrantedAuthorities(claims)
  {
    var c := Callers.Caller(subject, set a | a in Convert(defaults, claims), true);
    assert forall a :: a in c.authorities <==> a in defaults || a in GrantedAuthorities(claims) by {
      forall a ensures a in c.authorities <==> a in defaults || a in GrantedAuthorities(claims) {
        ConvertMembership(defaults, claims, a);
      }
    }
    c
  }
}
