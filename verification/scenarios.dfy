/**
 Worked examples that tie the pieces together: claims to authorities, the
 authorities to URL and resource decisions, and a failed provider sync.
 */
module Scenarios {
  import opened Wrappers
  import Ascii
  import Callers
  import RoleConverter
  import UrlRules
  import ResourceService
  import IdentityProvider
  import UserCache

  /** A realm role and a client role each give one prefixed, upper-cased
      authority; the client id is dropped. */
  lemma RealmAndClientRoles()
    ensures RoleConverter.Convert([], RoleConverter.Claims(
              Some(RoleConverter.RealmAccess(Some(["user"]))),
              Some([RoleConverter.ClientEntry("billing", RoleConverter.RoleMap(Some(["viewer"])))])))
            == ["ROLE_USER", "ROLE_VIEWER"]
  {
    var entries := [RoleConverter.ClientEntry("billing", RoleConverter.RoleMap(Some(["viewer"])))];
    assert RoleConverter.ClientRoles(entries) == ["viewer"] + RoleConverter.ClientRoles([]);
    assert RoleConverter.Authority("user") == "ROLE_USER";
    assert RoleConverter.Authority("viewer") == "ROLE_VIEWER";
  }

  /** "admin" and "Admin" name the same authority. */
  lemma AdminInAnyCase()
    ensures RoleConverter.Authority("admin") == "ROLE_ADMIN"
    ensures RoleConverter.Authority("Admin") == "ROLE_ADMIN"
  {
    assert Ascii.ToUpper("admin") == "ADMIN";
    assert Ascii.ToUpper("Admin") == "ADMIN";
  }

  /** A private resource of alice: bob is refused, alice and an admin are served. */
  lemma PrivateResourceOfAlice(store: ResourceService.Store, bob: Callers.Caller,
                               alice: Callers.Caller, admin: Callers.Caller)
    requires 7 in store && store[7].owner == Some("alice") && !store[7].publicResource
    requires bob.name == "bob" && bob.authorities == {}
    requires alice.name == "alice"
    requires "ROLE_ADMIN" in admin.authorities
    ensures ResourceService.GetResourceById(store, bob, 7) == ResourceService.Denied
    ensures ResourceService.GetResourceById(store, alice, 7) == ResourceService.Allowed(store[7])
    ensures ResourceService.GetResourceById(store, admin, 7) == ResourceService.Allowed(store[7])
  {
    Callers.AdminIsRoleAdmin(bob);
    Callers.AdminIsRoleAdmin(admin);
  }

  /** Deleting a resource is a request under `/api/user`. A token whose realm
      roles are "user" and "admin" (the latter in any case) passes that URL
      rule and the method-level delete check for every stored resource. */
  lemma RealmAdminControlsEverything(subject: string, defaults: seq<string>, role: string,
                                     path: string, store: ResourceService.Store, id: int)
    requires Ascii.ToUpper(role) == "ADMIN"
    requires UrlRules.Under("/api/user", path)
    requires id in store
    ensures var caller := RoleConverter.TokenCaller(subject, defaults,
                            RoleConverter.Claims(Some(RoleConverter.RealmAccess(Some(["user", role]))), None));
            && UrlRules.Authorize(caller, path)
            && ResourceService.DeleteResource(store, caller, id).Allowed?
  {
    var claims := RoleConverter.Claims(Some(RoleConverter.RealmAccess(Some(["user", role]))), None);
    var caller := RoleConverter.TokenCaller(subject, defaults, claims);
    assert Ascii.ToUpper("user") == "USER";
    assert RoleConverter.Authority(role) == "ROLE_ADMIN";
    assert RoleConverter.Authority("user") == "ROLE_USER";
    assert role in RoleConverter.ClaimedRoles(claims) && "user" in RoleConverter.ClaimedRoles(claims);
    assert "ROLE_ADMIN" in RoleConverter.GrantedAuthorities(claims);
    assert "ROLE_USER" in RoleConverter.GrantedAuthorities(claims);
    Callers.AdminIsRoleAdmin(caller);
    UrlRules.UrlAccess(caller, path);
  }

  /** A token whose only role is "admin" is refused at every `/api/user` URL,
      delete included, unless a default authority happens to be ROLE_USER:
      the admin role does not imply the user role. */
  lemma AdminOnlyTokenRefusedAtUserUrls(subject: string, defaults: seq<string>, role: string, path: string)
    requires Ascii.ToUpper(role) == "ADMIN"
    requires "ROLE_USER" !in defaults
    requires UrlRules.Under("/api/user", path)
    ensures !UrlRules.Authorize(RoleConverter.TokenCaller(subject, defaults,
              RoleConverter.Claims(Some(RoleConverter.RealmAccess(Some([role]))), None)), path)
  {
    var claims := RoleConverter.Claims(Some(RoleConverter.RealmAccess(Some([role]))), None);
    var caller := RoleConverter.TokenCaller(subject, defaults, claims);
    assert RoleConverter.ClaimedRoles(claims) == {role};
    assert RoleConverter.Authority(role) == "ROLE_ADMIN";
    assert RoleConverter.GrantedAuthorities(claims) == {"ROLE_ADMIN"};
    assert "ROLE_USER" !in caller.authorities;
    UrlRules.UrlAccess(caller, path);
  }

  /** When the admin token cannot be obtained, the sync reports no users and
      the cache is as before. */
  lemma FailedSyncCountsZero(cache: UserCache.Cache, us: IdentityProvider.UsersReply)
    ensures |UserCache.SyncAllUsers(cache, IdentityProvider.TokenFailed, us).users| == 0
    ensures UserCache.SyncAllUsers(cache, IdentityProvider.TokenFailed, us).cache == cache
  {
  }
}
