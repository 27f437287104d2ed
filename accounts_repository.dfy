/**
 * The accounts repository: the persistent accounts collection, keyed by DID,
 * with the shared in-memory accounts cache kept in step with it (cache-aside).
 * Reads fill the cache on a miss; a delete evicts the entry; a bulk
 * subscription update taints every id it was given; inserting and rotating a
 * public key leave the cache alone. Every cache update happens after the store
 * call succeeded, so a store failure leaves the cache as it was.
 *
 * Whether the collection is missing or the driver fails is not decided here:
 * each operation takes the fault, if any, as a parameter.
 */
module AccountsRepository {
  import opened Wrappers
  import opened AccountTypes
  import opened AccountCache

  const ACCOUNTS: string := "accounts"

  /** The two ways the store call can fail: no accounts collection, or a driver error. */
  datatype StoreFault = CollectionMissing | DriverFailure

  datatype RepositoryError =
    | PrimaryCollectionNotFound(collection: string)
    | DatabaseError(message: string)
    | DocumentNotFound(collection: string, id: Did)

  /** Mongo's `UpdateResult`, reduced to its two counts. */
  datatype UpdateResult = UpdateResult(matchedCount: nat, modifiedCount: nat)

  /** The error a store fault becomes: a database error carries the operation's name. */
  function FaultError(fault: StoreFault, operation: string): (e: RepositoryError)
    ensures fault == CollectionMissing <==> e == PrimaryCollectionNotFound(ACCOUNTS)
    ensures fault == DriverFailure <==> e == DatabaseError(operation)
  {
    match fault
    case CollectionMissing => PrimaryCollectionNotFound(ACCOUNTS)
    case DriverFailure => DatabaseError(operation)
  }

  /**
   * The document stored for a new organization: keyed by its DID, created and
   * updated now, no schemas or queries yet, and a subscription that is active
   * exactly on testnet.
   */
  function ToOrganizationAccountDocument(data: RegisterAccountRequest, env: Network, now: int): (d: AccountDocument)
    ensures d.OrganizationAccount? && d.TypeTag() == "organization"
    ensures d.id == data.did && d.publicKey == data.publicKey && d.name == data.name
    ensures d.created == now && d.updated == d.created
    ensures d.schemas == [] && d.queries == []
    ensures d.subscription.active <==> env == Testnet
  {
    OrganizationAccount(data.did, now, now, data.publicKey, data.name, Subscription(env == Testnet), [], [])
  }

  type Store = map<Did, AccountDocument>

  /** Every document is stored under its own `_id`. */
  predicate KeyedById(entries: map<Did, AccountDocument>)
  {
    forall id :: id in entries ==> entries[id].id == id
  }

  predicate IsOrganization(store: Store, id: Did)
  {
    id in store && store[id].OrganizationAccount?
  }

  /**
   * The store after `deleteOne({_id, _type: "organization"})`: the organization
   * with that DID is gone; root and admin documents, and every other document,
   * are kept as they were.
   */
  function WithoutOrganization(store: Store, id: Did): (r: Store)
    ensures forall k :: k in r <==> k in store && !(k == id && store[k].OrganizationAccount?)
    ensures forall k :: k in r ==> r[k] == store[k]
    ensures KeyedById(store) ==> KeyedById(r)
  {
    if IsOrganization(store, id) then store - {id} else store
  }

  /** `b` is `a` with at most its subscription changed. */
  predicate SameButSubscription(a: AccountDocument, b: AccountDocument)
  {
    a.OrganizationAccount? && b.OrganizationAccount? && b == a.(subscription := b.subscription)
  }

  /** The organizations among `ids`: what `{_id: {$in: ids}, _type: "organization"}` matches. */
  function Matched(store: Store, ids: seq<Did>): (r: set<Did>)
    ensures forall k :: k in r <==> IsOrganization(store, k) && k in ids
  {
    set k | k in store && k in ids && store[k].OrganizationAccount?
  }

  /** The matched organizations whose flag differs from `active`: what the update modifies. */
  function Changed(store: Store, ids: seq<Did>, active: bool): (r: set<Did>)
    ensures r <= Matched(store, ids)
    ensures forall k :: k in r <==> k in Matched(store, ids) && store[k].subscription.active != active
  {
    set k | k in Matched(store, ids) && store[k].subscription.active != active
  }

  /**
   * The store after setting `subscription.active := active` on the matched
   * organizations: those get the new flag and keep every other field; every
   * other document is unchanged.
   */
  function WithSubscription(store: Store, ids: seq<Did>, active: bool): (r: Store)
    ensures r.Keys == store.Keys
    ensures forall k :: k in Matched(store, ids) ==>
              SameButSubscription(store[k], r[k]) && r[k].subscription.active == active
    ensures forall k :: k in store && k !in Matched(store, ids) ==> r[k] == store[k]
    ensures KeyedById(store) ==> KeyedById(r)
  {
    map k | k in store ::
      if k in ids && store[k].OrganizationAccount? then store[k].(subscription := Subscription(active)) else store[k]
  }

  /** Setting the same state twice is setting it once. */
  lemma WithSubscriptionIdempotent(store: Store, ids: seq<Did>, active: bool)
    ensures WithSubscription(WithSubscription(store, ids, active), ids, active) == WithSubscription(store, ids, active)
    ensures Changed(WithSubscription(store, ids, active), ids, active) == {}
  {
    var once := WithSubscription(store, ids, active);
    var twice := WithSubscription(once, ids, active);
    assert Matched(once, ids) == Matched(store, ids);
    forall k | k in once ensures twice[k] == once[k] {
      if k in Matched(store, ids) {
        assert SameButSubscription(store[k], once[k]);
        assert SameButSubscription(once[k], twice[k]);
      }
    }
  }

  /** Only the set of ids matters, not their order or repetitions. */
  lemma WithSubscriptionIdsAsSet(store: Store, ids: seq<Did>, ids': seq<Did>, active: bool)
    requires forall k :: k in ids <==> k in ids'
    ensures WithSubscription(store, ids, active) == WithSubscription(store, ids', active)
    ensures Matched(store, ids) == Matched(store, ids')
  {
    var a, b := WithSubscription(store, ids, active), WithSubscription(store, ids', active);
    assert Matched(store, ids) == Matched(store, ids');
    forall k | k in a ensures a[k] == b[k] {
      if k in Matched(store, ids) {
        assert SameButSubscription(store[k], a[k]);
        assert SameButSubscription(store[k], b[k]);
      }
    }
  }

  /**
   * The store after `updateOne({_id, _type: "organization"}, {$set: {publicKey}})`:
   * only the public key of that organization changes.
   */
  function WithPublicKey(store: Store, id: Did, publicKey: string): (r: Store)
    ensures r.Keys == store.Keys
    ensures IsOrganization(store, id) ==> r[id] == store[id].(publicKey := publicKey)
    ensures forall k :: k in store && k != id ==> r[k] == store[k]
    ensures !IsOrganization(store, id) ==> r == store
    ensures KeyedById(store) ==> KeyedById(r)
  {
    if IsOrganization(store, id) then store[id := store[id].(publicKey := publicKey)] else store
  }

  /** Rotating a key is undone by rotating back to the old one. */
  lemma WithPublicKeyRestores(store: Store, id: Did, publicKey: string)
    requires IsOrganization(store, id)
    ensures WithPublicKey(WithPublicKey(store, id, publicKey), id, store[id].publicKey) == store
  {
    var back := WithPublicKey(WithPublicKey(store, id, publicKey), id, store[id].publicKey);
    assert back[id] == store[id];
  }

  class Repository {
    /** The accounts collection. */
    var store: Store
    /** The accounts cache of the application bindings, shared with the rest of the node. */
    const cache: Cache<Did, AccountDocument>

    ghost predicate Valid()
      reads this, cache
    {
      KeyedById(store) && forall k :: k in cache.entries ==> cache.entries[k].value.id == k
    }

    /** Every document the cache serves for a stored DID is the stored document. */
    ghost predicate CacheAgrees()
      reads this, cache
    {
      forall k :: k in store && cache.Lookup(k).Some? ==> cache.Lookup(k).value == store[k]
    }

    constructor (store: Store, cache: Cache<Did, AccountDocument>)
      requires KeyedById(store)
      requires forall k :: k in cache.entries ==> cache.entries[k].value.id == k
      ensures this.store == store && this.cache == cache && Valid()
    {
      this.store := store;
      this.cache := cache;
    }

    /** `insertOne`: a second document with the same `_id` is a duplicate-key error. */
    method Insert(document: AccountDocument, fault: Option<StoreFault>) returns (r: Result<(), RepositoryError>)
      requires Valid() && document.OrganizationAccount?
      modifies this
      ensures Valid() && unchanged(cache)
      ensures fault.Some? ==> r == Failure(FaultError(fault.value, "insert")) && store == old(store)
      ensures fault.None? && document.id in old(store) ==> r == Failure(DatabaseError("insert")) && store == old(store)
      ensures fault.None? && document.id !in old(store) ==> r == Success(()) && store == old(store)[document.id := document]
      ensures old(CacheAgrees()) && cache.Lookup(document.id).None? ==> CacheAgrees()
    {
      if fault.Some? {
        return Failure(FaultError(fault.value, "insert"));
      }
      if document.id in store {
        return Failure(DatabaseError("insert"));
      }
      store := store[document.id := document];
      r := Success(());
    }

    /**
     * `findByIdWithCache`: a cache hit is answered from the cache without
     * touching the store; a miss reads the store and, when the document is
     * there, caches it with the default lifetime. A missing document is an
     * error and is not cached.
     */
    method FindByIdWithCache(id: Did, fault: Option<StoreFault>) returns (r: Result<AccountDocument, RepositoryError>)
      requires Valid()
      modifies cache
      ensures Valid()
      ensures r.Success? ==> r.value.id == id
      ensures old(cache.Lookup(id)).Some? ==> r == Success(old(cache.Lookup(id)).value) && unchanged(cache)
      ensures old(cache.Lookup(id)).None? && fault.Some? ==>
                r == Failure(FaultError(fault.value, "findByIdWithCache")) && unchanged(cache)
      ensures old(cache.Lookup(id)).None? && fault.None? && id !in store ==>
                r == Failure(DocumentNotFound(ACCOUNTS, id)) && unchanged(cache)
      ensures old(cache.Lookup(id)).None? && fault.None? && id in store ==>
                r == Success(store[id]) &&
                cache.entries == old(cache.entries)[id := Entry(store[id], DefaultTtl)] &&
                cache.tainted == old(cache.tainted) - {id} &&
                cache.Lookup(id) == Some(store[id])
      ensures old(CacheAgrees()) ==> CacheAgrees()
    {
      var cached := cache.Lookup(id);
      if cached.Some? {
        return Success(cached.value);
      }
      if fault.Some? {
        return Failure(FaultError(fault.value, "findByIdWithCache"));
      }
      if id !in store {
        return Failure(DocumentNotFound(ACCOUNTS, id));
      }
      var document := store[id];
      cache.Set(id, document, DefaultTtl);
      r := Success(document);
    }

    /**
     * `deleteOneById`: deletes the organization with that DID, if there is
     * one, then evicts the DID from the cache whatever was deleted.
     */
    method DeleteOneById(id: Did, fault: Option<StoreFault>) returns (r: Result<(), RepositoryError>)
      requires Valid()
      modifies this, cache
      ensures Valid()
      ensures fault.Some? ==>
                r == Failure(FaultError(fault.value, "deleteOneById")) && store == old(store) && unchanged(cache)
      ensures fault.None? ==>
                r == Success(()) && store == WithoutOrganization(old(store), id) &&
                cache.entries == old(cache.entries) - {id} && cache.tainted == old(cache.tainted) - {id}
      ensures fault.None? ==> cache.Lookup(id).None?
      ensures old(CacheAgrees()) ==> CacheAgrees()
    {
      if fault.Some? {
        return Failure(FaultError(fault.value, "deleteOneById"));
      }
      store := WithoutOrganization(store, id);
      cache.Delete(id);
      r := Success(());
    }

    /**
     * `setSubscriptionState`: sets the flag on the organizations among `ids`,
     * then taints every id given, matched or not, one after the other.
     */
    method SetSubscriptionState(ids: seq<Did>, active: bool, fault: Option<StoreFault>)
      returns (r: Result<UpdateResult, RepositoryError>)
      requires Valid()
      modifies this, cache
      ensures Valid()
      ensures fault.Some? ==>
                r == Failure(FaultError(fault.value, "setSubscriptionState")) && store == old(store) && unchanged(cache)
      ensures fault.None? ==>
                r == Success(UpdateResult(|Matched(old(store), ids)|, |Changed(old(store), ids, active)|)) &&
                store == WithSubscription(old(store), ids, active) &&
                cache.entries == old(cache.entries) &&
                cache.tainted == old(cache.tainted) + (set i | 0 <= i < |ids| :: ids[i])
      ensures fault.None? ==> forall i :: 0 <= i < |ids| ==> cache.Lookup(ids[i]).None?
      ensures old(CacheAgrees()) ==> CacheAgrees()
    {
      if fault.Some? {
        return Failure(FaultError(fault.value, "setSubscriptionState"));
      }
      var matched := Matched(store, ids);
      var changed := Changed(store, ids, active);
      store := WithSubscription(store, ids, active);
      var i := 0;
      while i < |ids|
        invariant 0 <= i <= |ids|
        invariant store == WithSubscription(old(store), ids, active)
        invariant cache.entries == old(cache.entries)
        invariant cache.tainted == old(cache.tainted) + (set j | 0 <= j < i :: ids[j])
      {
        cache.Taint(ids[i]);
        i := i + 1;
      }
      r := Success(UpdateResult(|matched|, |changed|));
      if old(CacheAgrees()) {
        forall k | k in store && cache.Lookup(k).Some? ensures cache.Lookup(k).value == store[k] {
          assert k !in ids;
          assert k !in Matched(old(store), ids);
          assert old(cache.Lookup(k)).Some?;
        }
      }
    }

    /**
     * `setPublicKey`: changes the key of the organization with that DID. The
     * cache is not touched, so a cached copy goes on serving the old key.
     */
    method SetPublicKey(id: Did, publicKey: string, fault: Option<StoreFault>)
      returns (r: Result<UpdateResult, RepositoryError>)
      requires Valid()
      modifies this
      ensures Valid() && unchanged(cache)
      ensures fault.Some? ==> r == Failure(FaultError(fault.value, "setPublicKey")) && store == old(store)
      ensures fault.None? ==>
                store == WithPublicKey(old(store), id, publicKey) &&
                r == Success(if !IsOrganization(old(store), id) then UpdateResult(0, 0)
                             else if old(store)[id].publicKey == publicKey then UpdateResult(1, 0)
                             else UpdateResult(1, 1))
    {
      if fault.Some? {
        return Failure(FaultError(fault.value, "setPublicKey"));
      }
      if !IsOrganization(store, id) {
        return Success(UpdateResult(0, 0));
      }
      var modified := if store[id].publicKey == publicKey then 0 else 1;
      store := WithPublicKey(store, id, publicKey);
      r := Success(UpdateResult(1, modified));
    }

    /**
     * `deleteOneById` as intended, as recorded under "Findings" in the
     * README: the root account's DID is exempt from eviction, so the root
     * entry survives; any other DID is evicted as before.
     */
    method DeleteOneByIdSparingRoot(id: Did, rootDid: Did, fault: Option<StoreFault>)
      returns (r: Result<(), RepositoryError>)
      requires Valid()
      modifies this, cache
      ensures Valid()
      ensures fault.Some? ==>
                r == Failure(FaultError(fault.value, "deleteOneById")) && store == old(store) && unchanged(cache)
      ensures fault.None? ==> r == Success(()) && store == WithoutOrganization(old(store), id)
      ensures fault.None? && id == rootDid ==> unchanged(cache)
      ensures fault.None? && id != rootDid ==>
                cache.entries == old(cache.entries) - {id} && cache.tainted == old(cache.tainted) - {id} &&
                cache.Lookup(id).None?
      ensures old(CacheAgrees()) ==> CacheAgrees()
    {
      if fault.Some? {
        return Failure(FaultError(fault.value, "deleteOneById"));
      }
      store := WithoutOrganization(store, id);
      if id != rootDid {
        cache.Delete(id);
      }
      r := Success(());
    }

    /**
     * `setSubscriptionState` as intended, as recorded under "Findings" in
     * the README: every listed id is tainted except the root account's DID,
     * whose entry is left as it was.
     */
    method SetSubscriptionStateSparingRoot(ids: seq<Did>, active: bool, rootDid: Did, fault: Option<StoreFault>)
      returns (r: Result<UpdateResult, RepositoryError>)
      requires Valid()
      modifies this, cache
      ensures Valid()
      ensures fault.Some? ==>
                r == Failure(FaultError(fault.value, "setSubscriptionState")) && store == old(store) && unchanged(cache)
      ensures fault.None? ==>
                r == Success(UpdateResult(|Matched(old(store), ids)|, |Changed(old(store), ids, active)|)) &&
                store == WithSubscription(old(store), ids, active) &&
                cache.entries == old(cache.entries) &&
                cache.tainted == old(cache.tainted) + (set i | 0 <= i < |ids| && ids[i] != rootDid :: ids[i])
      ensures fault.None? ==> forall i :: 0 <= i < |ids| && ids[i] != rootDid ==> cache.Lookup(ids[i]).None?
      ensures cache.Lookup(rootDid) == old(cache.Lookup(rootDid))
      ensures old(CacheAgrees()) && !IsOrganization(old(store), rootDid) ==> CacheAgrees()
    {
      if fault.Some? {
        return Failure(FaultError(fault.value, "setSubscriptionState"));
      }
      var matched := Matched(store, ids);
      var changed := Changed(store, ids, active);
      store := WithSubscription(store, ids, active);
      var i := 0;
      while i < |ids|
        invariant 0 <= i <= |ids|
        invariant store == WithSubscription(old(store), ids, active)
        invariant cache.entries == old(cache.entries)
        invariant cache.tainted == old(cache.tainted) + (set j | 0 <= j < i && ids[j] != rootDid :: ids[j])
      {
        if ids[i] != rootDid {
          cache.Taint(ids[i]);
        }
        i := i + 1;
      }
      r := Success(UpdateResult(|matched|, |changed|));
      if old(CacheAgrees()) && !IsOrganization(old(store), rootDid) {
        forall k | k in store && cache.Lookup(k).Some? ensures cache.Lookup(k).value == store[k] {
          assert k !in Matched(old(store), ids);
          assert old(cache.Lookup(k)).Some?;
        }
      }
    }

    /**
     * `setPublicKey` with the cache kept in step: after a successful update
     * the id is tainted, so the next lookup reads the new key from the
     * store. The root account's DID is exempt, as for the other updates.
     */
    method SetPublicKeyTainting(id: Did, publicKey: string, rootDid: Did, fault: Option<StoreFault>)
      returns (r: Result<UpdateResult, RepositoryError>)
      requires Valid()
      modifies this, cache
      ensures Valid()
      ensures fault.Some? ==> r == Failure(FaultError(fault.value, "setPublicKey")) && store == old(store)
      ensures fault.None? ==>
                store == WithPublicKey(old(store), id, publicKey) &&
                r == Success(if !IsOrganization(old(store), id) then UpdateResult(0, 0)
                             else if old(store)[id].publicKey == publicKey then UpdateResult(1, 0)
                             else UpdateResult(1, 1))
      ensures fault.Some? || id == rootDid ==> unchanged(cache)
      ensures fault.None? && id != rootDid ==>
                cache.entries == old(cache.entries) && cache.tainted == old(cache.tainted) + {id} &&
                cache.Lookup(id).None?
      ensures old(CacheAgrees()) && (id == rootDid ==> !IsOrganization(old(store), rootDid)) ==> CacheAgrees()
    {
      r := SetPublicKey(id, publicKey, fault);
      if fault.None? && id != rootDid {
        cache.Taint(id);
      }
    }
  }
}
