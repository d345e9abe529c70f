/**
 The resource service: the authorization expressions on its eight public
 operations, stated as predicates over the caller and the resource store, and
 the effect each permitted operation has on the store.

 The store is the repository seen as a map from id to resource; its three
 derived finders are filters over the stored resources.
 */
module ResourceService {
  import opened Wrappers
  import Callers

  /** The four attributes the policy reads, plus the fields it ignores. A
      nullable owner or required role is an `Option`. */
  datatype Resource = Resource(id: int, owner: Option<string>, publicResource: bool,
                               requiredRole: Option<string>, details: string)

  type Store = map<int, Resource>

  /** An operation either runs, with its result, or is refused with an access-denied error. */
  datatype Outcome<T> = Allowed(value: T) | Denied

  /** The store after a save, and the entity `save` returns. */
  datatype Saved = Saved(store: Store, resource: Resource)

  /** Every stored resource carries the id it is stored under. */
  ghost predicate WellFormed(store: Store) {
    forall k :: k in store ==> store[k].id == k
  }

  // The repository finders.

  /** The resource is held in the store, under some id. */
  predicate Stored(store: Store, r: Resource) {
    exists k :: k in store && store[k] == r
  }

  function FindById(store: Store, id: int): Option<Resource> {
    if id in store then Some(store[id]) else None
  }

  function FindAll(store: Store): set<Resource> {
    set k | k in store :: store[k]
  }

  function FindByPublicResourceTrue(store: Store): set<Resource> {
    set k | k in store && store[k].publicResource :: store[k]
  }

  function FindByOwner(store: Store, owner: string): set<Resource> {
    set k | k in store && store[k].owner == Some(owner) :: store[k]
  }

  function FindByRequiredRole(store: Store, role: string): set<Resource> {
    set k | k in store && store[k].requiredRole == Some(role) :: store[k]
  }

  /** In a well-formed store a stored resource is found under its own id. */
  lemma StoredUnderId(store: Store, r: Resource)
    requires WellFormed(store)
    requires Stored(store, r)
    ensures r.id in store && store[r.id] == r
  {
    var k :| k in store && store[k] == r;
  }

  // The authorization expressions.

  /** `getOwner() == authentication.name`: exact string equality; a null owner matches nobody. */
  predicate Owns(caller: Callers.Caller, r: Resource) {
    r.owner == Some(caller.name)
  }

  /** The post-authorization of `getResourceById` on its return value. */
  predicate ReleaseFound(found: Option<Resource>, caller: Callers.Caller) {
    found.Some? && (found.value.publicResource || Owns(caller, found.value) || Callers.IsAdmin(caller))
  }

  /** The pre-authorization of `updateResource` and `deleteResource`. It calls
      `getResourceById` through the service proxy, so that call's own
      post-authorization runs first: when it refuses, the whole expression
      refuses. */
  predicate ModifyPermitted(store: Store, caller: Callers.Caller, id: int) {
    match GetResourceById(store, caller, id)
    case Denied => false
    case Allowed(r) => Owns(caller, r) || Callers.IsAdmin(caller)
  }

  // The operations.

  /** `getPublicResources`: no authentication required. */
  function GetPublicResources(store: Store): (rs: set<Resource>)
    ensures forall r :: r in rs <==> Stored(store, r) && r.publicResource
  {
    FindByPublicResourceTrue(store)
  }

  /** `getAllResources`. */
  function GetAllResources(store: Store, caller: Callers.Caller): (o: Outcome<set<Resource>>)
    ensures o.Allowed? <==> caller.authenticated
    ensures o.Allowed? ==> forall r :: r in o.value <==> Stored(store, r)
  {
    if caller.authenticated then Allowed(FindAll(store)) else Denied
  }

  /** `getMyResources`. */
  function GetMyResources(store: Store, caller: Callers.Caller): (o: Outcome<set<Resource>>)
    ensures o.Allowed? <==> caller.authenticated
    ensures o.Allowed? ==> forall r :: r in o.value <==> Stored(store, r) && Owns(caller, r)
  {
    if caller.authenticated then Allowed(FindByOwner(store, caller.name)) else Denied
  }

  /** `getResourceById`: the lookup runs, then its result is released only
      when present and public, owned by the caller, or the caller is admin. */
  function GetResourceById(store: Store, caller: Callers.Caller, id: int): (o: Outcome<Resource>)
    ensures o.Allowed? <==>
              id in store && (store[id].publicResource || Owns(caller, store[id]) || Callers.IsAdmin(caller))
    ensures o.Allowed? ==> o.value == store[id]
  {
    var found := FindById(store, id);
    if ReleaseFound(found, caller) then Allowed(found.value) else Denied
  }

  /** `createResource` as written: the owner is overwritten with the caller's
      name and the payload is handed to `save` with the id it carries. A
      payload that carries an id is saved onto that id (a merge); one without
      is given the id the repository generates, which is never a stored id. */
  function CreateResourceAsWritten(store: Store, caller: Callers.Caller, payload: Resource,
                                   payloadHasId: bool, generatedId: int): (o: Outcome<Saved>)
    requires !payloadHasId ==> generatedId !in store
    ensures o.Allowed? <==> caller.authenticated
    ensures o.Allowed? ==>
              && o.value.resource.owner == Some(caller.name)
              && o.value.resource.id == (if payloadHasId then payload.id else generatedId)
              && o.value.resource.publicResource == payload.publicResource
              && o.value.resource.requiredRole == payload.requiredRole
              && o.value.resource.details == payload.details
              && o.value.store == store[o.value.resource.id := o.value.resource]
  {
    if caller.authenticated then
      var target := if payloadHasId then payload.id else generatedId;
      var saved := payload.(owner := Some(caller.name), id := target);
      Allowed(Saved(store[target := saved], saved))
    else
      Denied
  }

  /** `createResource` as intended: the owner is the caller and the resource
      gets a new id, whatever id the payload carries, so no stored resource
      is touched. */
  function CreateResource(store: Store, caller: Callers.Caller, payload: Resource, generatedId: int): (o: Outcome<Saved>)
    requires generatedId !in store
    ensures o.Allowed? <==> caller.authenticated
    ensures o.Allowed? ==>
              && o.value.resource.owner == Some(caller.name)
              && o.value.resource.id == generatedId
              && o.value.resource.publicResource == payload.publicResource
              && o.value.resource.requiredRole == payload.requiredRole
              && o.value.resource.details == payload.details
              && o.value.store.Keys == store.Keys + {generatedId}
              && o.value.store[generatedId] == o.value.resource
    ensures o.Allowed? ==> forall k :: k in store ==> o.value.store[k] == store[k]
  {
    if caller.authenticated then
      var saved := payload.(owner := Some(caller.name), id := generatedId);
      Allowed(Saved(store[generatedId := saved], saved))
    else
      Denied
  }

  /** `updateResource`: the payload is saved with its id forced to the path
      id; its other fields, the owner included, are saved as supplied. */
  function UpdateResource(store: Store, caller: Callers.Caller, id: int, payload: Resource): (o: Outcome<Saved>)
    ensures o.Allowed? <==> id in store && (Owns(caller, store[id]) || Callers.IsAdmin(caller))
    ensures o.Allowed? ==>
              && o.value.resource.id == id
              && o.value.resource.owner == payload.owner
              && o.value.resource.publicResource == payload.publicResource
              && o.value.resource.requiredRole == payload.requiredRole
              && o.value.resource.details == payload.details
              && o.value.store == store[id := o.value.resource]
  {
    if ModifyPermitted(store, caller, id) then
      var saved := payload.(id := id);
      Allowed(Saved(store[id := saved], saved))
    else
      Denied
  }

  /** `deleteResource`: removes that id and nothing else. */
  function DeleteResource(store: Store, caller: Callers.Caller, id: int): (o: Outcome<Store>)
    ensures o.Allowed? <==> id in store && (Owns(caller, store[id]) || Callers.IsAdmin(caller))
    ensures o.Allowed? ==> id !in o.value
    ensures o.Allowed? ==> forall k :: k != id ==> (k in o.value <==> k in store)
    ensures o.Allowed? ==> forall k :: k != id && k in store ==> o.value[k] == store[k]
  {
    if ModifyPermitted(store, caller, id) then Allowed(store - {id}) else Denied
  }

  /** `getResourcesByRequiredRole`: allowed iff the caller holds the queried role. */
  function GetResourcesByRequiredRole(store: Store, caller: Callers.Caller, role: string): (o: Outcome<set<Resource>>)
    ensures o.Allowed? <==> Callers.HasRole(caller, role)
    ensures o.Allowed? ==> forall r :: r in o.value <==> Stored(store, r) && r.requiredRole == Some(role)
  {
    if Callers.HasRole(caller, role) then Allowed(FindByRequiredRole(store, role)) else Denied
  }

  // Properties relating the operations.

  /** The nested evaluation of the update/delete expression agrees with the
      plain rule: the resource exists and its persisted owner is the caller,
      or the caller is admin. */
  lemma ModifyPermittedIff(store: Store, caller: Callers.Caller, id: int)
    ensures ModifyPermitted(store, caller, id) <==>
              id in store && (Owns(caller, store[id]) || Callers.IsAdmin(caller))
  {
  }

  /** A public resource is released to every caller, the anonymous one included. */
  lemma PublicReadableByAnyone(store: Store, caller: Callers.Caller, id: int)
    requires id in store && store[id].publicResource
    ensures GetResourceById(store, caller, id) == Allowed(store[id])
    ensures GetResourceById(store, Callers.Anonymous, id) == Allowed(store[id])
  {
  }

  /** An absent id and a resource the caller may not read give the same
      refusal, so a refusal does not reveal whether the id exists. */
  lemma RefusalHidesExistence(store: Store, caller: Callers.Caller, id: int, other: int)
    requires id !in store
    requires other in store && !store[other].publicResource && !Owns(caller, store[other])
    requires !Callers.IsAdmin(caller)
    ensures GetResourceById(store, caller, id) == GetResourceById(store, caller, other) == Denied
  {
  }

  /** Without a payload id, the create as written is the corrected create. */
  lemma CreateAgreesWithoutPayloadId(store: Store, caller: Callers.Caller, payload: Resource, generatedId: int)
    requires generatedId !in store
    ensures CreateResourceAsWritten(store, caller, payload, false, generatedId)
         == CreateResource(store, caller, payload, generatedId)
  {
  }

  /** Whatever owner the payload names, the created resource is the same,
      whether or not the payload carries an id. */
  lemma CreateIgnoresPayloadOwner(store: Store, caller: Callers.Caller, payload: Resource,
                                  forged: Option<string>, payloadHasId: bool, assignedId: int)
    requires !payloadHasId ==> assignedId !in store
    ensures CreateResourceAsWritten(store, caller, payload, payloadHasId, assignedId)
         == CreateResourceAsWritten(store, caller, payload.(owner := forged), payloadHasId, assignedId)
    ensures assignedId !in store ==>
              (CreateResource(store, caller, payload, assignedId)
               == CreateResource(store, caller, payload.(owner := forged), assignedId))
  {
  }

  /** Whatever the payload says, only the persisted resource decides an update. */
  lemma UpdateDecidedByPersistedState(store: Store, caller: Callers.Caller, id: int, p1: Resource, p2: Resource)
    ensures UpdateResource(store, caller, id, p1).Allowed? == UpdateResource(store, caller, id, p2).Allowed?
    ensures UpdateResource(store, caller, id, p1).Allowed? == DeleteResource(store, caller, id).Allowed?
  {
  }

  /** The creator of a resource can read, update and delete it afterwards. */
  lemma CreatorControlsCreated(store: Store, caller: Callers.Caller, payload: Resource,
                               assignedId: int, next: Resource)
    requires caller.authenticated
    requires assignedId !in store
    ensures var s := CreateResource(store, caller, payload, assignedId).value;
            && GetResourceById(s.store, caller, assignedId) == Allowed(s.resource)
            && UpdateResource(s.store, caller, assignedId, next).Allowed?
            && DeleteResource(s.store, caller, assignedId).Allowed?
  {
  }

  /** As written too, the creator can read, update and delete what it saved,
      whether it was saved onto the payload's id or a generated one. */
  lemma CreatorControlsCreatedAsWritten(store: Store, caller: Callers.Caller, payload: Resource,
                                        payloadHasId: bool, generatedId: int, next: Resource)
    requires caller.authenticated
    requires !payloadHasId ==> generatedId !in store
    ensures var s := CreateResourceAsWritten(store, caller, payload, payloadHasId, generatedId).value;
            && GetResourceById(s.store, caller, s.resource.id) == Allowed(s.resource)
            && UpdateResource(s.store, caller, s.resource.id, next).Allowed?
            && DeleteResource(s.store, caller, s.resource.id).Allowed?
  {
  }

  /** Every resource of the caller's own list can be read, updated and deleted by the caller. */
  lemma OwnResourcesAreControlled(store: Store, caller: Callers.Caller, r: Resource, next: Resource)
    requires WellFormed(store)
    requires caller.authenticated
    requires r in GetMyResources(store, caller).value
    ensures GetResourceById(store, caller, r.id) == Allowed(r)
    ensures UpdateResource(store, caller, r.id, next).Allowed?
    ensures DeleteResource(store, caller, r.id).Allowed?
  {
    StoredUnderId(store, r);
  }

  /** Every resource of the public list can be read by anyone. */
  lemma PublicListIsReadable(store: Store, caller: Callers.Caller, r: Resource)
    requires WellFormed(store)
    requires r in GetPublicResources(store)
    ensures GetResourceById(store, caller, r.id) == Allowed(r)
  {
    StoredUnderId(store, r);
  }

  /** Once deleted, a resource is refused to everybody. */
  lemma DeletedIsGone(store: Store, caller: Callers.Caller, id: int, anyone: Callers.Caller)
    requires DeleteResource(store, caller, id).Allowed?
    ensures GetResourceById(DeleteResource(store, caller, id).value, anyone, id) == Denied
  {
  }

  /** The public list, the caller's own list and a role list are all parts
      of the full list, and the full list holds the resource of every stored id. */
  lemma ListsAreViewsOfAll(store: Store, caller: Callers.Caller, role: string)
    requires caller.authenticated
    ensures var all := GetAllResources(store, caller).value;
            && GetPublicResources(store) <= all
            && GetMyResources(store, caller).value <= all
            && (Callers.HasRole(caller, role) ==> GetResourcesByRequiredRole(store, caller, role).value <= all)
            && forall k :: k in store ==> store[k] in all
  {
  }

  /** An update saves the payload's owner, so an owner who is not an admin
      and names someone else in the payload can no longer change the resource. */
  lemma UpdateCanHandOver(store: Store, caller: Callers.Caller, id: int, payload: Resource, next: Resource)
    requires id in store && Owns(caller, store[id]) && !Callers.IsAdmin(caller)
    requires payload.owner != Some(caller.name)
    ensures UpdateResource(store, caller, id, payload).Allowed?
    ensures var after := UpdateResource(store, caller, id, payload).value.store;
            !UpdateResource(after, caller, id, next).Allowed? && !DeleteResource(after, caller, id).Allowed?
  {
  }

  /** As written, create bypasses the update rule: a payload carrying the id
      of a resource the caller may not update replaces that resource with one
      the caller owns. */
  lemma CreateAsWrittenTakesOver(store: Store, caller: Callers.Caller, payload: Resource,
                                 generatedId: int, next: Resource)
    requires caller.authenticated && !Callers.IsAdmin(caller)
    requires payload.id in store && !Owns(caller, store[payload.id])
    ensures UpdateResource(store, caller, payload.id, next) == Denied
    ensures var s := CreateResourceAsWritten(store, caller, payload, true, generatedId).value.store;
            && payload.id in s && Owns(caller, s[payload.id]) && s[payload.id] != store[payload.id]
            && UpdateResource(s, caller, payload.id, next).Allowed?
  {
  }

  /** As intended, create changes no decision about any resource already stored. */
  lemma CreateLeavesStoredDecisions(store: Store, caller: Callers.Caller, payload: Resource,
                                    generatedId: int, anyone: Callers.Caller, k: int, next: Resource)
    requires generatedId !in store && caller.authenticated
    requires k in store
    ensures var s := CreateResource(store, caller, payload, generatedId).value.store;
            && GetResourceById(s, anyone, k) == GetResourceById(store, anyone, k)
            && UpdateResource(s, anyone, k, next).Allowed? == UpdateResource(store, anyone, k, next).Allowed?
            && DeleteResource(s, anyone, k).Allowed? == DeleteResource(store, anyone, k).Allowed?
  {
  }

  /** Creating, updating and deleting keep every resource stored under its own id. */
  lemma OperationsKeepWellFormed(store: Store, caller: Callers.Caller, id: int, payload: Resource, assignedId: int)
    requires WellFormed(store)
    requires assignedId !in store
    ensures CreateResource(store, caller, payload, assignedId).Allowed? ==>
              WellFormed(CreateResource(store, caller, payload, assignedId).value.store)
    ensures UpdateResource(store, caller, id, payload).Allowed? ==>
              WellFormed(UpdateResource(store, caller, id, payload).value.store)
    ensures DeleteResource(store, caller, id).Allowed? ==>
              WellFormed(DeleteResource(store, caller, id).value)
  {
  }

  /** The create as written keeps every resource stored under its own id too. */
  lemma CreateAsWrittenKeepsWellFormed(store: Store, caller: Callers.Caller, payload: Resource,
                                       payloadHasId: bool, generatedId: int)
    requires WellFormed(store)
    requires !payloadHasId ==> generatedId !in store
    ensures CreateResourceAsWritten(store, caller, payload, payloadHasId, generatedId).Allowed? ==>
              WellFormed(CreateResourceAsWritten(store, caller, payload, payloadHasId, generatedId).value.store)
  {
  }
}
