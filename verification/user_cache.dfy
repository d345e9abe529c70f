/**
 The user service's cache of provider user records: a map from user id to
 record, read through on lookup, refreshed additively by the (on-demand or
 hourly) sync, and cleared per id or entirely. Every provider answer is an
 input; each operation is a transition from the old cache to the new one.
 */
module UserCache {
  import opened Wrappers
  import opened IdentityProvider

  type Cache = map<string, User>

  /** The cache after a lookup, and the record returned (None for null). */
  datatype Lookup = Lookup(cache: Cache, user: Option<User>)

  /** The cache after a sync, and the list returned. */
  datatype Synced = Synced(cache: Cache, users: seq<User>)

  /** `getUserInfo`: a hit answers from the cache; a miss fetches, and a
      fetched record is stored under the requested id. */
  function GetUserInfo(cache: Cache, userId: string, token: TokenReply, reply: UserReply): (r: Lookup)
    ensures userId in cache ==> r == Lookup(cache, Some(cache[userId]))
    ensures userId !in cache ==> r.user == FetchUser(token, reply)
    ensures r.user.Some? ==> userId in r.cache && r.cache[userId] == r.user.value
    ensures r.user.None? ==> r.cache == cache
    ensures forall k :: k != userId ==> (k in r.cache <==> k in cache)
    ensures forall k :: k != userId && k in cache ==> r.cache[k] == cache[k]
    ensures cache.Keys <= r.cache.Keys
  {
    if userId in cache then
      Lookup(cache, Some(cache[userId]))
    else
      match FetchUser(token, reply)
      case Some(u) => Lookup(cache[userId := u], Some(u))
      case None => Lookup(cache, None)
  }

  /** The `forEach(put)` of the sync: the users are stored under their own
      ids, left to right. */
  function PutAll(cache: Cache, users: seq<User>): Cache
    decreases |users|
  {
    if |users| == 0 then cache else PutAll(cache[users[0].id := users[0]], users[1..])
  }

  predicate InBatch(users: seq<User>, k: string) {
    exists i :: 0 <= i < |users| && users[i].id == k
  }

  /** The bulk upsert adds every id of the batch, keeps every other entry as
      it was, and leaves at each batch id the LAST user of the batch with
      that id. */
  lemma {:induction false} PutAllSpec(cache: Cache, users: seq<User>, k: string)
    ensures k in PutAll(cache, users) <==> k in cache || InBatch(users, k)
    ensures !InBatch(users, k) && k in cache ==> PutAll(cache, users)[k] == cache[k]
    ensures InBatch(users, k) ==>
              exists i :: 0 <= i < |users| && users[i].id == k && PutAll(cache, users)[k] == users[i]
                          && forall j :: i < j < |users| ==> users[j].id != k
    decreases |users|
  {
    if |users| > 0 {
      var c' := cache[users[0].id := users[0]];
      var rest := users[1..];
      PutAllSpec(c', rest, k);
      assert PutAll(cache, users) == PutAll(c', rest);
      if InBatch(rest, k) {
        var i :| 0 <= i < |rest| && rest[i].id == k && PutAll(c', rest)[k] == rest[i]
                 && forall j :: i < j < |rest| ==> rest[j].id != k;
        assert users[i + 1] == rest[i];
        assert forall j :: i + 1 < j < |users| ==> users[j] == rest[j - 1];
      } else {
        assert forall j :: 1 <= j < |users| ==> users[j] == rest[j - 1];
        if InBatch(users, k) {
          assert users[0].id == k;
        } else {
          assert users[0].id != k;
        }
      }
    }
  }

  /** With distinct ids in the batch, every user of the batch is found under its id. */
  lemma PutAllDistinct(cache: Cache, users: seq<User>, i: int)
    requires forall a, b :: 0 <= a < b < |users| ==> users[a].id != users[b].id
    requires 0 <= i < |users|
    ensures users[i].id in PutAll(cache, users) && PutAll(cache, users)[users[i].id] == users[i]
  {
    PutAllSpec(cache, users, users[i].id);
  }

  /** `syncAllUsers`: on success the fetched list is upserted and returned;
      on any failure the cache is unchanged and the list is empty. */
  function SyncAllUsers(cache: Cache, token: TokenReply, reply: UsersReply): (r: Synced)
    ensures FetchAll(token, reply).None? ==> r == Synced(cache, [])
    ensures FetchAll(token, reply).Some? ==> r.users == FetchAll(token, reply).value
    ensures cache.Keys <= r.cache.Keys
    ensures forall k :: k in r.cache <==> k in cache || InBatch(r.users, k)
    ensures forall k :: k in cache && !InBatch(r.users, k) ==> r.cache[k] == cache[k]
  {
    match FetchAll(token, reply)
    case None => Synced(cache, [])
    case Some(users) =>
      var c := PutAll(cache, users);
      assert forall k :: (k in c <==> k in cache || InBatch(users, k))
                         && (k in cache && !InBatch(users, k) ==> c[k] == cache[k]) by {
        forall k ensures (k in c <==> k in cache || InBatch(users, k))
                         && (k in cache && !InBatch(users, k) ==> c[k] == cache[k]) {
          PutAllSpec(cache, users, k);
        }
      }
      Synced(c, users)
  }

  /** A successful sync upserts each user under its own id, the last one
      winning; ids outside the batch are kept, never pruned. */
  lemma SyncUpserts(cache: Cache, token: TokenReply, reply: UsersReply, k: string)
    requires FetchAll(token, reply).Some?
    ensures var r := SyncAllUsers(cache, token, reply);
            InBatch(r.users, k) ==>
              exists i :: 0 <= i < |r.users| && r.users[i].id == k && r.cache[k] == r.users[i]
                          && forall j :: i < j < |r.users| ==> r.users[j].id != k
  {
    PutAllSpec(cache, FetchAll(token, reply).value, k);
  }

  /** After a successful sync every id of the batch is answered from the
      cache, with the last batch user of that id, whatever the provider would
      answer to the lookup. */
  lemma SyncedUserIsServedFromCache(cache: Cache, token: TokenReply, reply: UsersReply, k: string,
                                    t: TokenReply, u: UserReply)
    requires FetchAll(token, reply).Some?
    requires InBatch(FetchAll(token, reply).value, k)
    ensures var r := SyncAllUsers(cache, token, reply);
            var lookup := GetUserInfo(r.cache, k, t, u);
            && lookup.cache == r.cache
            && exists i :: 0 <= i < |r.users| && r.users[i].id == k && lookup.user == Some(r.users[i])
                           && forall j :: i < j < |r.users| ==> r.users[j].id != k
  {
    SyncUpserts(cache, token, reply, k);
  }

  /** Every entry after a sync was in the cache before or came in the batch. */
  lemma SyncOnlyStoresFetched(cache: Cache, token: TokenReply, reply: UsersReply, k: string)
    requires k in SyncAllUsers(cache, token, reply).cache
    ensures var r := SyncAllUsers(cache, token, reply);
            (k in cache && r.cache[k] == cache[k]) || r.cache[k] in r.users
  {
    var r := SyncAllUsers(cache, token, reply);
    if InBatch(r.users, k) {
      SyncUpserts(cache, token, reply, k);
    }
  }

  /** `scheduledUserSync`: the same transition as the on-demand sync, with
      the returned list dropped. */
  function ScheduledUserSync(cache: Cache, token: TokenReply, reply: UsersReply): (c: Cache)
    ensures FetchAll(token, reply).None? ==> c == cache
    ensures FetchAll(token, reply).Some? ==> c == PutAll(cache, FetchAll(token, reply).value)
  {
    SyncAllUsers(cache, token, reply).cache
  }

  /** `clearUserCache`: removes that id and nothing else. */
  function ClearUserCache(cache: Cache, userId: string): (r: Cache)
    ensures userId !in r
    ensures forall k :: k != userId ==> (k in r <==> k in cache)
    ensures forall k :: k != userId && k in cache ==> r[k] == cache[k]
  {
    cache - {userId}
  }

  /** `clearAllCache`. */
  function ClearAllCache(cache: Cache): (r: Cache)
    ensures forall k :: k !in r
  {
    map[]
  }

  /** A lookup on a cached id never consults the provider: whatever the
      provider would answer, the result and the cache are the same. */
  lemma HitIgnoresProvider(cache: Cache, userId: string, t1: TokenReply, u1: UserReply,
                           t2: TokenReply, u2: UserReply)
    requires userId in cache
    ensures GetUserInfo(cache, userId, t1, u1) == GetUserInfo(cache, userId, t2, u2)
    ensures GetUserInfo(cache, userId, t1, u1).cache == cache
  {
  }

  /** Once a lookup has returned a record, the next lookup of that id returns
      the same record, from the cache, whatever the provider would answer. */
  lemma ReadThroughSticks(cache: Cache, userId: string, t1: TokenReply, u1: UserReply,
                          t2: TokenReply, u2: UserReply)
    requires GetUserInfo(cache, userId, t1, u1).user.Some?
    ensures var first := GetUserInfo(cache, userId, t1, u1);
            GetUserInfo(first.cache, userId, t2, u2) == first
  {
  }

  /** After clearing one id its next lookup goes to the provider, while every
      other cached id still answers from the cache. */
  lemma ClearUserForcesRefetch(cache: Cache, userId: string, other: string, t: TokenReply, u: UserReply)
    ensures GetUserInfo(ClearUserCache(cache, userId), userId, t, u).user == FetchUser(t, u)
    ensures other != userId && other in cache ==>
              GetUserInfo(ClearUserCache(cache, userId), other, t, u).user == Some(cache[other])
  {
  }

  /** After clearing everything every lookup is a miss: the answer is the provider's. */
  lemma ClearAllForcesRefetch(cache: Cache, userId: string, t: TokenReply, u: UserReply)
    ensures GetUserInfo(ClearAllCache(cache), userId, t, u).user == FetchUser(t, u)
  {
  }

  /** A failed admin token acquisition: the sync returns nothing and changes
      nothing, and a lookup of an uncached id returns nothing and changes nothing. */
  lemma TokenFailureDegrades(cache: Cache, userId: string, token: TokenReply,
                             u: UserReply, us: UsersReply)
    requires AdminToken(token).None?
    ensures SyncAllUsers(cache, token, us) == Synced(cache, [])
    ensures userId !in cache ==> GetUserInfo(cache, userId, token, u) == Lookup(cache, None)
  {
  }
}
