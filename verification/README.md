# Keycloak-backed resource authorization, modelled in Dafny

This project models the decision logic of a Spring Boot service that protects
owned resources using Keycloak tokens. It covers three parts:

- **Role extraction** (`KeycloakRoleConverter.convert`). The claims of a
  verified token become a list of authorities. The list starts with the
  default scope authorities. Then comes one `ROLE_<UPPER>` authority per
  realm role, and one per role of each `resource_access` client entry whose
  value is a map holding `"roles"`. The same configuration class holds the
  ordered URL access rules of the HTTP filter chain.
- **The user cache** (`KeycloakUserService`). A map from user id to user
  record, with these operations:
  - read-through lookup (`getUserInfo`);
  - an additive bulk upsert (`syncAllUsers`, and the hourly
    `scheduledUserSync` that calls it);
  - per-id and total invalidation.

  Every answer from the identity provider is an input of the transition:
  - the token response (`TokenReply`);
  - the single-user response (`UserReply`);
  - the user-list response (`UsersReply`).

  "The provider is not contacted" is stated as "the result does not depend
  on what the provider would answer".
- **The resource access policy** (`ResourceService`). The method-security
  expressions become predicates over a caller and a store
  (`map<int, Resource>`). The caller is its name, its authority set, and
  whether it is authenticated. Each operation returns `Allowed(result)` or
  `Denied`. A permitted operation also returns its effect on the store.

Modules: `Wrappers` (Option), `Ascii` (upper-casing), `Callers` (the caller
and `hasRole`), `RoleConverter`, `UrlRules`, `IdentityProvider`,
`UserCache`, `ResourceService`, and `Scenarios` (worked examples that join
the parts).

Where the code differs from what its comments or a reader might expect, the
model follows the code:

- The converter returns a list, not a set. It appends to the default
  converter's list, so a role named twice gives the authority twice.
  Membership is what the contracts state.
- `getResourceById` refuses an absent id and a forbidden resource the same
  way, with an access-denied error: `returnObject.isPresent()` is part of the
  post-authorization expression. So the controller's not-found branch is
  never reached, and a refusal reveals nothing about whether the id exists
  (`ResourceService.RefusalHidesExistence`).
- The update and delete expressions call `getResourceById` through the
  service proxy, so its post-authorization runs inside them.
  `ResourceService.ModifyPermitted` models that nesting.
  `ResourceService.ModifyPermittedIff` proves it equal to the plain rule:
  the resource exists, and its persisted owner is the caller or the caller
  is an admin.
- `updateResource` saves the payload's owner as supplied. An owner can hand
  a resource to another name, or clear its owner so that only admins can
  change it afterwards (`ResourceService.UpdateCanHandOver`).
- `createResource` hands the payload to `save` with whatever id it carries.
  A payload carrying a stored id is merged onto that resource. This is
  recorded under "## Findings" below. The rest of the model uses the
  corrected create, which always gets a new id.

## Model

| member | source | states |
|---|---|---|
| Ascii.ToUpperIdentifiesCase | src/main/java/com/postgrad/securitydemo/config/SecurityConfig.java:136 | two role names upper-case to the same string iff they have the same length and agree letter by letter up to case |
| Callers.RoleAuthority | src/main/java/com/postgrad/securitydemo/service/ResourceService.java:89 | `hasRole(r)` asks for `r` itself when it already starts with `ROLE_`, and for `ROLE_` + `r` otherwise |
| Callers.HasRoleIgnoresPrefix | src/main/java/com/postgrad/securitydemo/service/ResourceService.java:89 | for an unprefixed role, `hasRole(r)` and `hasRole("ROLE_" + r)` grant exactly the same callers |
| Callers.AdminIsRoleAdmin | src/main/java/com/postgrad/securitydemo/service/ResourceService.java:46 | `hasRole('ADMIN')` holds iff the caller has the authority `ROLE_ADMIN` |
| RoleConverter.Convert | src/main/java/com/postgrad/securitydemo/config/SecurityConfig.java:118-171 | the default authorities are a prefix of the result (extraction only adds); every appended authority carries the `ROLE_` prefix |
| RoleConverter.ConvertMembership | src/main/java/com/postgrad/securitydemo/config/SecurityConfig.java:120-170 | an authority is in the result iff it is a default authority or `ROLE_` + upper(r) for a realm role r or a role r of a role-bearing client entry |
| RoleConverter.ClientIdIrrelevant | src/main/java/com/postgrad/securitydemo/config/SecurityConfig.java:148-160 | renaming the clients of `resource_access` leaves the result unchanged: client roles are attributed by role name only |
| RoleConverter.InertEntryContributesNothing | src/main/java/com/postgrad/securitydemo/config/SecurityConfig.java:149-151 | a client entry whose value is not a map, or lacks `"roles"`, can be removed without changing the result |
| RoleConverter.NoRoleClaimsGivesDefaults | src/main/java/com/postgrad/securitydemo/config/SecurityConfig.java:120-166 | with no realm roles and no `resource_access` the result is exactly the default authorities |
| RoleConverter.AuthorityIgnoresCase | src/main/java/com/postgrad/securitydemo/config/SecurityConfig.java:157 | two roles give the same authority iff they differ only in letter case |
| RoleConverter.TokenCaller | src/main/java/com/postgrad/securitydemo/config/SecurityConfig.java:92-97 | the authenticated caller built from a token holds exactly the default authorities and the authorities of the claimed roles |
| UrlRules.FirstMatch | src/main/java/com/postgrad/securitydemo/config/SecurityConfig.java:63-74 | a path that no pattern of the table matches falls to the catch-all and requires authentication |
| UrlRules.PatternsDisjoint | src/main/java/com/postgrad/securitydemo/config/SecurityConfig.java:65-71 | no path matches two of the five patterns |
| UrlRules.RuleOrderIrrelevant | src/main/java/com/postgrad/securitydemo/config/SecurityConfig.java:63-74 | any table holding exactly the five rules, in any order and with any repetition, gives every path the same requirement as the table as written |
| UrlRules.MatchingRuleDecides | src/main/java/com/postgrad/securitydemo/config/SecurityConfig.java:63-74 | the requirement of a path is that of the pattern it matches, wherever that rule sits |
| UrlRules.UrlAccess | src/main/java/com/postgrad/securitydemo/config/SecurityConfig.java:63-74 | public, health and docs paths admit everyone; `/api/user` paths iff ROLE_USER; `/api/admin` paths iff ROLE_ADMIN; all other paths iff authenticated |
| IdentityProvider.AdminToken | src/main/java/com/postgrad/securitydemo/service/KeycloakUserService.java:55-84 | a token is obtained iff the request returned a non-null body whose `access_token` is a string; a failed request, a null body, or a missing, null or non-string value give none |
| IdentityProvider.AuthHeaders | src/main/java/com/postgrad/securitydemo/service/KeycloakUserService.java:89-98 | headers exist iff a token was obtained, and they carry that token |
| IdentityProvider.FetchUser | src/main/java/com/postgrad/securitydemo/service/KeycloakUserService.java:118-140 | a user is returned iff a token was obtained and the user request returned a non-null body, which is returned as is |
| IdentityProvider.FetchAll | src/main/java/com/postgrad/securitydemo/service/KeycloakUserService.java:147-162 | a list is obtained iff a token was obtained and the list request returned a non-null body |
| IdentityProvider.NoTokenNoFetch | src/main/java/com/postgrad/securitydemo/service/KeycloakUserService.java:118-150 | without a token both fetches give nothing, whatever the user endpoints would answer |
| UserCache.GetUserInfo | src/main/java/com/postgrad/securitydemo/service/KeycloakUserService.java:103-113 | a hit returns the cached record and leaves the cache unchanged; a miss returns the fetch result, stores a fetched record under the requested id, and changes nothing else |
| UserCache.HitIgnoresProvider | src/main/java/com/postgrad/securitydemo/service/KeycloakUserService.java:103-106 | a lookup of a cached id gives the same result whatever the provider would answer, so the provider is not contacted |
| UserCache.ReadThroughSticks | src/main/java/com/postgrad/securitydemo/service/KeycloakUserService.java:103-112 | after a lookup returned a record, the next lookup of that id returns the same record and cache, whatever the provider answers |
| UserCache.PutAllSpec | src/main/java/com/postgrad/securitydemo/service/KeycloakUserService.java:164 | the bulk upsert adds every batch id, keeps every other entry unchanged, and leaves at each batch id the last user of the batch with that id |
| UserCache.PutAllDistinct | src/main/java/com/postgrad/securitydemo/service/KeycloakUserService.java:164 | with distinct ids every user of the batch is found under its own id |
| UserCache.SyncAllUsers | src/main/java/com/postgrad/securitydemo/service/KeycloakUserService.java:145-173 | a failed sync returns an empty list and leaves the cache unchanged; a successful one returns exactly the fetched list; no id is ever removed, and ids outside the batch keep their records |
| UserCache.SyncUpserts | src/main/java/com/postgrad/securitydemo/service/KeycloakUserService.java:162-166 | after a successful sync every batch id holds the last batch user with that id |
| UserCache.SyncedUserIsServedFromCache | src/main/java/com/postgrad/securitydemo/service/KeycloakUserService.java:103-166 | after a successful sync every batch id is a cache hit that returns the last batch user with that id, whatever the provider would answer |
| UserCache.SyncOnlyStoresFetched | src/main/java/com/postgrad/securitydemo/service/KeycloakUserService.java:162-166 | every entry after a sync is either unchanged from before or one of the fetched users |
| UserCache.ScheduledUserSync | src/main/java/com/postgrad/securitydemo/service/KeycloakUserService.java:178-182 | the scheduled sync makes the same cache transition as the on-demand sync: the upsert of the fetched list, or no change on failure |
| UserCache.ClearUserCache | src/main/java/com/postgrad/securitydemo/service/KeycloakUserService.java:187-189 | the id is removed and every other entry is unchanged |
| UserCache.ClearAllCache | src/main/java/com/postgrad/securitydemo/service/KeycloakUserService.java:194-196 | no id remains in the cache |
| UserCache.ClearUserForcesRefetch | src/main/java/com/postgrad/securitydemo/service/KeycloakUserService.java:187-189 | after clearing an id its next lookup is the provider's answer, while other cached ids still answer from the cache |
| UserCache.ClearAllForcesRefetch | src/main/java/com/postgrad/securitydemo/service/KeycloakUserService.java:194-196 | after clearing everything the next lookup of any id is a miss answered by the provider |
| UserCache.TokenFailureDegrades | src/main/java/com/postgrad/securitydemo/service/KeycloakUserService.java:145-150 | when no admin token is obtained the sync returns nothing and changes nothing, and a lookup of an uncached id returns nothing and changes nothing |
| ResourceService.GetPublicResources | src/main/java/com/postgrad/securitydemo/service/ResourceService.java:24-26 | needs no authentication and returns exactly the stored resources flagged public |
| ResourceService.GetAllResources | src/main/java/com/postgrad/securitydemo/service/ResourceService.java:31-34 | allowed iff the caller is authenticated, and then returns every stored resource |
| ResourceService.GetMyResources | src/main/java/com/postgrad/securitydemo/service/ResourceService.java:39-43 | allowed iff the caller is authenticated, and then returns exactly the stored resources whose owner equals the caller name |
| ResourceService.GetResourceById | src/main/java/com/postgrad/securitydemo/service/ResourceService.java:48-53 | the resource is released iff it is present and public, owned by the caller, or the caller is admin; otherwise denied, the absent case included |
| ResourceService.CreateResourceAsWritten | src/main/java/com/postgrad/securitydemo/service/ResourceService.java:58-63 | allowed iff authenticated; the saved resource has the caller as owner whatever the payload said and keeps the other payload fields; it is saved onto the payload's own id when the payload carries one, otherwise onto the generated id, which is not a stored id, and that one write is the only change to the store |
| ResourceService.CreateResource | src/main/java/com/postgrad/securitydemo/service/ResourceService.java:58-63 | corrected create: with a generated id not yet stored, the new resource is owned by the caller, is added under that id, and every stored resource is kept unchanged |
| ResourceService.UpdateResource | src/main/java/com/postgrad/securitydemo/service/ResourceService.java:68-74 | allowed iff the stored resource exists and its persisted owner is the caller or the caller is admin; saves the payload with the path id, owner as supplied, and changes nothing else |
| ResourceService.DeleteResource | src/main/java/com/postgrad/securitydemo/service/ResourceService.java:79-84 | allowed under the same rule as update; removes exactly that id and keeps every other resource |
| ResourceService.GetResourcesByRequiredRole | src/main/java/com/postgrad/securitydemo/service/ResourceService.java:89-92 | allowed iff the caller holds the queried role, and then returns exactly the resources requiring that role |
| ResourceService.ModifyPermittedIff | src/main/java/com/postgrad/securitydemo/service/ResourceService.java:68-70 | the nested expression, whose inner read can itself be refused, agrees with "exists and (persisted owner is the caller or admin)" |
| ResourceService.PublicReadableByAnyone | src/main/java/com/postgrad/securitydemo/service/ResourceService.java:48-50 | a public resource is released to every caller, the anonymous caller included |
| ResourceService.RefusalHidesExistence | src/main/java/com/postgrad/securitydemo/service/ResourceService.java:48-53 | an absent id and a private resource of someone else give the same refusal |
| ResourceService.CreateIgnoresPayloadOwner | src/main/java/com/postgrad/securitydemo/service/ResourceService.java:58-62 | changing the owner in the create payload does not change the outcome: for the create as written whether or not the payload carries an id, and for the corrected create |
| ResourceService.UpdateDecidedByPersistedState | src/main/java/com/postgrad/securitydemo/service/ResourceService.java:68-73 | the update decision does not depend on the payload, and it equals the delete decision |
| ResourceService.CreateAgreesWithoutPayloadId | src/main/java/com/postgrad/securitydemo/service/ResourceService.java:58-63 | for a payload without an id, the create as written is exactly the corrected create |
| ResourceService.CreatorControlsCreatedAsWritten | src/main/java/com/postgrad/securitydemo/service/ResourceService.java:58-84 | after the create as written, whether saved onto the payload's id or a generated one, the caller can read, update and delete the saved resource |
| ResourceService.CreatorControlsCreated | src/main/java/com/postgrad/securitydemo/service/ResourceService.java:58-84 | after creating a resource the caller can read, update and delete it |
| ResourceService.OwnResourcesAreControlled | src/main/java/com/postgrad/securitydemo/service/ResourceService.java:39-84 | every resource in the caller's own list can be read, updated and deleted by the caller |
| ResourceService.PublicListIsReadable | src/main/java/com/postgrad/securitydemo/service/ResourceService.java:24-52 | every resource in the public list is released by id to any caller |
| ResourceService.DeletedIsGone | src/main/java/com/postgrad/securitydemo/service/ResourceService.java:79-84 | after a delete, reading that id is refused to everybody |
| ResourceService.ListsAreViewsOfAll | src/main/java/com/postgrad/securitydemo/service/ResourceService.java:24-43 | the public, own and role lists are parts of the full list, and the full list holds the resource of every stored id |
| ResourceService.UpdateCanHandOver | src/main/java/com/postgrad/securitydemo/service/ResourceService.java:68-73 | an owner who is not admin and saves a payload naming another owner can no longer update or delete the resource |
| ResourceService.CreateAsWrittenTakesOver | src/main/java/com/postgrad/securitydemo/service/ResourceService.java:58-62 | as written, a non-admin caller refused an update of another owner's resource can create with that resource's id, which replaces it with one the caller owns and may then update |
| ResourceService.CreateLeavesStoredDecisions | src/main/java/com/postgrad/securitydemo/service/ResourceService.java:58-62 | the corrected create changes no read, update or delete decision about any already-stored resource |
| ResourceService.CreateAsWrittenKeepsWellFormed | src/main/java/com/postgrad/securitydemo/service/ResourceService.java:58-63 | the create as written keeps every resource stored under its own id |
| ResourceService.OperationsKeepWellFormed | src/main/java/com/postgrad/securitydemo/service/ResourceService.java:58-84 | create, update and delete keep every resource stored under its own id |
| Scenarios.RealmAndClientRoles | src/main/java/com/postgrad/securitydemo/config/SecurityConfig.java:129-160 | realm role "user" and client role "viewer" of client "billing" give exactly ROLE_USER, ROLE_VIEWER |
| Scenarios.AdminInAnyCase | src/main/java/com/postgrad/securitydemo/config/SecurityConfig.java:136 | "admin" and "Admin" both give ROLE_ADMIN |
| Scenarios.PrivateResourceOfAlice | src/main/java/com/postgrad/securitydemo/service/ResourceService.java:48-53 | alice's private resource 7 is refused to bob and released to alice and to an admin |
| Scenarios.RealmAdminControlsEverything | src/main/java/com/postgrad/securitydemo/controller/UserController.java:18-55 | deleting is a request under `/api/user`; a token with realm roles "user" and "admin" (the latter in any case) passes that URL rule and the method-level delete check for every stored resource |
| Scenarios.AdminOnlyTokenRefusedAtUserUrls | src/main/java/com/postgrad/securitydemo/config/SecurityConfig.java:69 | a token whose only role is "admin", in any case, is refused at every `/api/user` URL, delete included, unless a default authority is ROLE_USER: the admin role does not imply the user role |
| Scenarios.FailedSyncCountsZero | src/main/java/com/postgrad/securitydemo/service/KeycloakUserService.java:145-150 | when the token request fails the sync reports zero users and the cache is unchanged |

## Left out

- HTTP traffic to the identity provider is not modelled: token endpoint, user endpoints, URL formatting and headers. Each request is an input reply, which is `TokenReply`, `UserReply` or `UsersReply`.
- Concurrency is not modelled. The cache is a plain map with sequential transitions, and the hourly scheduler is not modelled beyond its call to the sync.
- Null ids and null user fields are not modelled. A null id in a sync batch throws after some puts have been made; the model assumes well-formed records.
- The default scope-claim converter is a foreign library. Its authorities are an input list.
- `toUpperCase` is modelled on ASCII letters only. Locale and Unicode case mapping are not modelled.
- Malformed claim shapes are not modelled. These are a `realm_access` or `resource_access` claim that is not an object, which makes `getClaimAsMap` throw; a `"roles"` value that is not a collection of strings; and a null role. In the code they throw rather than degrade; the model takes role lists as well-typed and does not claim that extraction never fails.
- Spring infrastructure is not modelled: expression evaluation, proxying, and how an access-denied error becomes an HTTP status. The anonymous caller is Spring's default (`anonymousUser`, `ROLE_ANONYMOUS`).
- Bearer-token validation in the filter chain, which rejects a bad token before any URL rule applies, is not modelled.
- Request-path normalisation by the matchers (encoded characters, servlet paths) is not modelled. `UrlRules.Under` compares literal strings.
- The repository is a map from id to resource, and its finders are filters over it. Java `long` ids are unbounded integers.
- ResourceService.CreateResourceAsWritten: the entity class and its id mapping are not part of this model. Whether the payload carries an id, and the id the repository generates, are inputs; a generated id is never one already stored. A payload id that is not stored is modelled as saved onto that id. The persistence provider may instead insert it under a generated id or reject it; that case is not modelled.
- ResourceService.GetPublicResources, ResourceService.GetAllResources, ResourceService.GetMyResources and ResourceService.GetResourcesByRequiredRole return sets. The order and duplicates of the repository's lists are not modelled.
- Logging and console output are not modelled.
- Wiring and bootstrap are not modelled: CORS, Keycloak client configuration, the request factory and the application class.
- The controllers are not modelled. They only map results to responses; the sync count is the length of the list `UserCache.SyncAllUsers` returns.

## Findings

| source | as written | input that shows it | evidently intended | confidence | as-written member | corrected member |
|---|---|---|---|---|---|---|
| src/main/java/com/postgrad/securitydemo/service/ResourceService.java:58-62 | `createResource` sets only the owner and passes the payload to `save` with the id it carries, so a payload id that is already stored is merged onto that resource | an authenticated, non-admin caller "bob" posts a resource whose id is 7, where resource 7 is stored and owned by "alice": resource 7 is replaced by bob's payload, owned by bob, although bob's update of 7 is refused | create makes a new resource and never replaces a stored one, so only update and delete, under the ownership rule, change stored resources | medium; depends on the entity's id mapping, which is not part of this model; not executed | ResourceService.CreateAsWrittenTakesOver | ResourceService.CreateLeavesStoredDecisions |
