/**
 * What the repository does to the root account that bootstrap seeds into the
 * accounts cache. The root account is never stored in the accounts
 * collection, so the cache entry is the only place it can be found. Neither
 * `deleteOneById` nor `setSubscriptionState` sets the root's DID apart: given
 * that DID, the first evicts the entry and the second taints it, and the next
 * lookup goes to the store and finds nothing. `insert` does not touch the
 * cache either, so an organization stored under the root's DID is never
 * served: the cached root document answers first.
 *
 * The last four methods set the code as written beside the behaviour it is
 * meant to have. With the root's DID spared, delete and subscription updates
 * leave the root account served. A key rotation goes unseen after a cached
 * read as written, and is seen once the rotation taints the id.
 */
module RootAccountLifecycle {
  import opened Wrappers
  import opened AccountTypes
  import opened AccountCache
  import opened AccountsRepository
  import opened Env

  /** Right after bootstrap the root account is served from the cache, whatever the store holds. */
  method RootServedAfterBootstrap(config: EnvVars, fromSecretKey: string -> NodeIdentity, store: Store,
                                  fault: Option<StoreFault>)
    returns (found: Result<AccountDocument, RepositoryError>)
    requires KeyedById(store)
    ensures found == Success(RootDocument(fromSecretKey(config.nodeSecretKey)))
  {
    var process := ProcessEnv(None, None, None, None, None, None, None, None, None, None, None);
    var bindings := LoadBindings(Some(config), process, _ => true, fromSecretKey);
    var repository := new Repository(store, bindings.value.accounts);
    found := repository.FindByIdWithCache(bindings.value.node.identity.did, fault);
  }

  /** Deleting by the root's DID evicts the root entry; the root can no longer be found. */
  method DeleteEvictsRoot(config: EnvVars, fromSecretKey: string -> NodeIdentity, store: Store)
    returns (before: Result<AccountDocument, RepositoryError>, after: Result<AccountDocument, RepositoryError>)
    requires KeyedById(store) && fromSecretKey(config.nodeSecretKey).did !in store
    ensures before == Success(RootDocument(fromSecretKey(config.nodeSecretKey)))
    ensures after == Failure(DocumentNotFound(ACCOUNTS, fromSecretKey(config.nodeSecretKey).did))
  {
    var process := ProcessEnv(None, None, None, None, None, None, None, None, None, None, None);
    var bindings := LoadBindings(Some(config), process, _ => true, fromSecretKey);
    var root := bindings.value.node.identity.did;
    var repository := new Repository(store, bindings.value.accounts);
    before := repository.FindByIdWithCache(root, None);
    var _ := repository.DeleteOneById(root, None);
    after := repository.FindByIdWithCache(root, None);
  }

  /** Listing the root's DID in a subscription update taints the root entry, with the same result. */
  method SubscriptionUpdateTaintsRoot(config: EnvVars, fromSecretKey: string -> NodeIdentity, store: Store,
                                      others: seq<Did>, active: bool)
    returns (after: Result<AccountDocument, RepositoryError>)
    requires KeyedById(store) && fromSecretKey(config.nodeSecretKey).did !in store
    ensures after == Failure(DocumentNotFound(ACCOUNTS, fromSecretKey(config.nodeSecretKey).did))
  {
    var process := ProcessEnv(None, None, None, None, None, None, None, None, None, None, None);
    var bindings := LoadBindings(Some(config), process, _ => true, fromSecretKey);
    var root := bindings.value.node.identity.did;
    var repository := new Repository(store, bindings.value.accounts);
    var _ := repository.SetSubscriptionState(others + [root], active, None);
    assert (others + [root])[|others|] == root;
    after := repository.FindByIdWithCache(root, None);
  }

  /**
   * `insert` leaves the cache alone, so an organization inserted under the
   * root's DID is stored while lookups keep answering with the root document.
   */
  method InsertUnderRootDidKeepsRoot(config: EnvVars, fromSecretKey: string -> NodeIdentity, store: Store,
                                     organization: AccountDocument)
    returns (inserted: Result<(), RepositoryError>, after: Result<AccountDocument, RepositoryError>)
    requires KeyedById(store) && fromSecretKey(config.nodeSecretKey).did !in store
    requires organization.OrganizationAccount? && organization.id == fromSecretKey(config.nodeSecretKey).did
    ensures inserted == Success(())
    ensures after == Success(RootDocument(fromSecretKey(config.nodeSecretKey)))
    ensures after != Success(organization)
  {
    var process := ProcessEnv(None, None, None, None, None, None, None, None, None, None, None);
    var bindings := LoadBindings(Some(config), process, _ => true, fromSecretKey);
    var root := bindings.value.node.identity.did;
    var repository := new Repository(store, bindings.value.accounts);
    inserted := repository.Insert(organization, None);
    assert repository.store[root] == organization;
    after := repository.FindByIdWithCache(root, None);
  }

  /** With the root exempt from eviction, deleting by the root's DID leaves the root account served. */
  method DeleteSparingRootKeepsRoot(config: EnvVars, fromSecretKey: string -> NodeIdentity, store: Store)
    returns (after: Result<AccountDocument, RepositoryError>)
    requires KeyedById(store)
    ensures after == Success(RootDocument(fromSecretKey(config.nodeSecretKey)))
  {
    var process := ProcessEnv(None, None, None, None, None, None, None, None, None, None, None);
    var bindings := LoadBindings(Some(config), process, _ => true, fromSecretKey);
    var root := bindings.value.node.identity.did;
    var repository := new Repository(store, bindings.value.accounts);
    var _ := repository.DeleteOneByIdSparingRoot(root, root, None);
    after := repository.FindByIdWithCache(root, None);
  }

  /**
   * With the root exempt from tainting, a subscription update listing the
   * root's DID leaves the root account served, while every other listed id
   * misses in the cache.
   */
  method SubscriptionUpdateSparingRootKeepsRoot(config: EnvVars, fromSecretKey: string -> NodeIdentity, store: Store,
                                                others: seq<Did>, active: bool)
    returns (after: Result<AccountDocument, RepositoryError>)
    requires KeyedById(store)
    ensures after == Success(RootDocument(fromSecretKey(config.nodeSecretKey)))
  {
    var process := ProcessEnv(None, None, None, None, None, None, None, None, None, None, None);
    var bindings := LoadBindings(Some(config), process, _ => true, fromSecretKey);
    var root := bindings.value.node.identity.did;
    var repository := new Repository(store, bindings.value.accounts);
    var _ := repository.SetSubscriptionStateSparingRoot(others + [root], active, root, None);
    after := repository.FindByIdWithCache(root, None);
  }

  /**
   * `setPublicKey` as written: once an organization is cached, a key
   * rotation is not seen by later lookups, which go on answering with the
   * old key although the store holds the new one.
   */
  method KeyRotationServesOldKey(organization: AccountDocument, publicKey: string)
    returns (after: Result<AccountDocument, RepositoryError>, stored: AccountDocument)
    requires organization.OrganizationAccount? && organization.publicKey != publicKey
    ensures stored == organization.(publicKey := publicKey)
    ensures after == Success(organization)
    ensures after.value.publicKey != stored.publicKey
  {
    var cache := new Cache<Did, AccountDocument>();
    var repository := new Repository(map[organization.id := organization], cache);
    var _ := repository.FindByIdWithCache(organization.id, None);
    var _ := repository.SetPublicKey(organization.id, publicKey, None);
    stored := repository.store[organization.id];
    after := repository.FindByIdWithCache(organization.id, None);
  }

  /**
   * With the cache tainted on rotation, the lookup after a key rotation
   * answers with the stored document, which carries the new key.
   */
  method KeyRotationIsServed(organization: AccountDocument, publicKey: string, rootDid: Did)
    returns (after: Result<AccountDocument, RepositoryError>)
    requires organization.OrganizationAccount? && organization.id != rootDid
    ensures after == Success(organization.(publicKey := publicKey))
  {
    var cache := new Cache<Did, AccountDocument>();
    var repository := new Repository(map[organization.id := organization], cache);
    var _ := repository.FindByIdWithCache(organization.id, None);
    var _ := repository.SetPublicKeyTainting(organization.id, publicKey, rootDid, None);
    after := repository.FindByIdWithCache(organization.id, None);
  }
}
