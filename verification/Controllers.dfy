/**
 The controller as the object it is, one call at a time: each handler and each sync is proved to do what the
 functions of `Reconcile` and `Handlers` say, which the step machine then interleaves.
 */
module Controllers {
  import opened Common
  import opened Resources
  import opened QueueKeys
  import opened Stores
  import opened WorkQueues
  import opened Reconcile
  import opened Handlers
  import opened Listers

  datatype ApiError = AlreadyExists | Missing | Denied

  /** The secrets API: creates and updates are applied as they are, or refused. */
  class SecretClient {
    var secrets: Secrets
    const denies: Secret -> bool

    constructor (denies: Secret -> bool)
      ensures secrets == map[] && this.denies == denies
    {
      secrets := map[];
      this.denies := denies;
    }

    method Create(namespace: string, secret: Secret) returns (err: Option<ApiError>)
      modifies this
      ensures var id := SecretId(namespace, secret.name);
              && (denies(secret) ==> err == Some(Denied) && secrets == old(secrets))
              && (!denies(secret) && id in old(secrets) ==> err == Some(AlreadyExists) && secrets == old(secrets))
              && (!denies(secret) && id !in old(secrets) ==> err == None && secrets == old(secrets)[id := secret])
    {
      var id := SecretId(namespace, secret.name);
      if denies(secret) {
        return Some(Denied);
      }
      if id in secrets {
        return Some(AlreadyExists);
      }
      secrets := secrets[id := secret];
      return None;
    }

    method Update(namespace: string, secret: Secret) returns (err: Option<ApiError>)
      modifies this
      ensures var id := SecretId(namespace, secret.name);
              && (denies(secret) ==> err == Some(Denied) && secrets == old(secrets))
              && (!denies(secret) && id !in old(secrets) ==> err == Some(Missing) && secrets == old(secrets))
              && (!denies(secret) && id in old(secrets) ==> err == None && secrets == old(secrets)[id := secret])
    {
      var id := SecretId(namespace, secret.name);
      if denies(secret) {
        return Some(Denied);
      }
      if id !in secrets {
        return Some(Missing);
      }
      secrets := secrets[id := secret];
      return None;
    }
  }

  /** The in-memory store backend. */
  class MemoryStore {
    var contents: Contents

    constructor (contents: Contents)
      ensures this.contents == contents
    {
      this.contents := contents;
    }

    method Fetch(key: string) returns (r: Result<Object, StoreError>)
      ensures r == Get(contents, key)
    {
      if key !in contents {
        return Err(NotFound);
      }
      return Ok(contents[key]);
    }
  }

  /** The crypts the API lists across all namespaces, in the order it lists them. */
  class CryptClient {
    var items: seq<Crypt>

    constructor ()
      ensures items == []
    {
      items := [];
    }
  }

  function NamespacesOf(items: seq<Crypt>): (listed: seq<string>)
    ensures |listed| == |items| && forall i :: 0 <= i < |items| ==> listed[i] == items[i].namespace
  {
    seq(|items|, i requires 0 <= i < |items| => items[i].namespace)
  }

  /** What an informer hands to a delete handler. */
  datatype Deleted = Object(obj: ApiObject) | Tombstone(obj: ApiObject)
  datatype ApiObject = SecretObject(secret: Secret) | OtherObject

  datatype SyncError = StoreFailed(error: StoreError) | ApiFailed(err: ApiError)

  // --- The declarative result of a sync, as one map -------------------------------------------------------

  ghost function TargetIds(crypt: Crypt, namespaces: set<string>): set<SecretId> {
    set ns, d | ns in namespaces && d in crypt.secrets :: SecretId(ns, d.name)
  }

  /** The secrets after a sync of the crypt: what it wants where it wants something, the rest as before. */
  ghost function Reconciled(cfg: Config, store: Contents, namespaces: set<string>, crypt: Crypt,
                            api: Secrets): Secrets {
    map id | id in api.Keys + TargetIds(crypt, namespaces)
             && (id in api || Desired(cfg, store, namespaces, crypt, id).Some?)
      :: var want := Desired(cfg, store, namespaces, crypt, id);
         if want.Some? then want.value else api[id]
  }

  lemma ReconciledAt(cfg: Config, store: Contents, namespaces: set<string>, crypt: Crypt, api: Secrets, id: SecretId)
    ensures Find(Reconciled(cfg, store, namespaces, crypt, api), id)
         == OrElse(Desired(cfg, store, namespaces, crypt, id), Find(api, id))
  {
    LastGoodIsLast(cfg, store, crypt, crypt.secrets, id);
    if Desired(cfg, store, namespaces, crypt, id).Some? {
      var d :| d in crypt.secrets && d.name == id.name;
      assert SecretId(id.namespace, d.name) in TargetIds(crypt, namespaces);
    }
  }

  lemma {:induction false} SyncIsReconciled(cfg: Config, store: Contents, crypt: Crypt, namespaces: set<string>,
                                            matched: seq<string>, api: Secrets)
    requires (set ns | ns in matched) == Selected(cfg, crypt.namespaces, namespaces)
    ensures SyncCrypt(cfg, store, crypt, matched, api) == Reconciled(cfg, store, namespaces, crypt, api)
  {
    forall id
      ensures Find(SyncCrypt(cfg, store, crypt, matched, api), id)
           == Find(Reconciled(cfg, store, namespaces, crypt, api), id)
    {
      SyncMeaning(cfg, store, crypt, namespaces, matched, api, id);
      ReconciledAt(cfg, store, namespaces, crypt, api, id);
    }
    MapsAgree(SyncCrypt(cfg, store, crypt, matched, api), Reconciled(cfg, store, namespaces, crypt, api));
  }

  /** The secrets after a sync of whatever the key names. */
  ghost function SyncKey(cfg: Config, store: Contents, namespaces: set<string>, cache: map<string, Crypt>, key: string,
                         api: Secrets): Secrets {
    var found := Lookup(cache, key);
    if found.None? then api else Reconciled(cfg, store, namespaces, found.value, api)
  }

  /** At each identity: what the crypt filed under the key wants there, and what was there if it wants nothing. */
  lemma SyncKeyAt(cfg: Config, store: Contents, namespaces: set<string>, cache: map<string, Crypt>, key: string,
                  api: Secrets, id: SecretId)
    requires ValidCache(cache)
    ensures Find(SyncKey(cfg, store, namespaces, cache, key, api), id)
         == if key in cache then OrElse(Desired(cfg, store, namespaces, cache[key], id), Find(api, id))
            else Find(api, id)
  {
    LookupIsCached(cache, key);
    if key in cache {
      ReconciledAt(cfg, store, namespaces, cache[key], api, id);
    }
  }

  ghost function SyncKeys(cfg: Config, store: Contents, namespaces: set<string>, cache: map<string, Crypt>,
                          keys: seq<string>, api: Secrets): Secrets
    decreases |keys|
  {
    if keys == [] then api
    else SyncKeys(cfg, store, namespaces, cache, keys[1..], SyncKey(cfg, store, namespaces, cache, keys[0], api))
  }

  /** Keys whose crypts want nothing at an identity leave it alone. */
  lemma {:induction false} SyncKeysLeave(cfg: Config, store: Contents, namespaces: set<string>,
                                         cache: map<string, Crypt>, keys: seq<string>, api: Secrets, id: SecretId)
    requires ValidCache(cache)
    requires forall k :: k in keys && k in cache ==> Desired(cfg, store, namespaces, cache[k], id).None?
    ensures Find(SyncKeys(cfg, store, namespaces, cache, keys, api), id) == Find(api, id)
    decreases |keys|
  {
    if keys != [] {
      SyncKeyAt(cfg, store, namespaces, cache, keys[0], api, id);
      var next := SyncKey(cfg, store, namespaces, cache, keys[0], api);
      SyncKeysLeave(cfg, store, namespaces, cache, keys[1..], next, id);
    }
  }

  /** The last key whose crypt wants an identity decides what is there in the end. */
  lemma {:induction false} LastKeyDecides(cfg: Config, store: Contents, namespaces: set<string>,
                                          cache: map<string, Crypt>, keys: seq<string>, api: Secrets, id: SecretId,
                                          i: nat)
    requires ValidCache(cache) && i < |keys| && keys[i] in cache
    requires Desired(cfg, store, namespaces, cache[keys[i]], id).Some?
    requires forall k :: k in keys[i + 1..] && k in cache ==> Desired(cfg, store, namespaces, cache[k], id).None?
    ensures Find(SyncKeys(cfg, store, namespaces, cache, keys, api), id)
         == Desired(cfg, store, namespaces, cache[keys[i]], id)
    decreases |keys|
  {
    var next := SyncKey(cfg, store, namespaces, cache, keys[0], api);
    if i == 0 {
      SyncKeyAt(cfg, store, namespaces, cache, keys[0], api, id);
      SyncKeysLeave(cfg, store, namespaces, cache, keys[1..], next, id);
    } else {
      assert keys[1..][i..] == keys[i + 1..];
      LastKeyDecides(cfg, store, namespaces, cache, keys[1..], next, id, i - 1);
    }
  }

  // --- Namespace-add loop helper ----------------------------------------------------------------------------

  lemma {:induction false} CryptsForNamespaceSnoc(cfg: Config, homes: seq<string>, lists: map<string, seq<Crypt>>,
                                                  name: string, home: string, list: seq<Crypt>)
    requires (forall h :: h in homes ==> h in lists) && home !in homes
    ensures CryptsForNamespace(cfg, homes + [home], lists[home := list], name)
         == CryptsForNamespace(cfg, homes, lists, name)
            + (var first := FirstMatch(cfg, list, name); if first.Some? then [first.value] else [])
  {
    if homes == [] {
      assert homes + [home] == [home];
    } else {
      assert (homes + [home])[1..] == homes[1..] + [home];
      CryptsForNamespaceSnoc(cfg, homes[1..], lists, name, home, list);
    }
  }

  class Controller {
    const queue: WorkQueue<string>
    const kube: SecretClient
    const cryptClient: CryptClient
    const namespaceLister: NamespaceLister
    const cryptLister: CryptLister
    const store: MemoryStore
    const matches: (string, string) -> bool

    constructor (queue: WorkQueue<string>, kube: SecretClient, cryptClient: CryptClient,
                 namespaceLister: NamespaceLister,
                 cryptLister: CryptLister, store: MemoryStore, matches: (string, string) -> bool)
      ensures this.queue == queue && this.kube == kube && this.cryptClient == cryptClient
      ensures this.namespaceLister == namespaceLister && this.cryptLister == cryptLister
      ensures this.store == store && this.matches == matches
    {
      this.queue, this.kube, this.cryptClient := queue, kube, cryptClient;
      this.namespaceLister, this.cryptLister := namespaceLister, cryptLister;
      this.store, this.matches := store, matches;
    }

    function Cfg(): (cfg: Config)
      ensures cfg.matches == matches && cfg.denies == kube.denies
    {
      Config(matches, kube.denies)
    }

    /** The informer's promise about its index. */
    ghost predicate IndexValid()
      reads cryptLister.indexer
    {
      ValidCache(cryptLister.indexer.items)
    }

    // --- Syncing --------------------------------------------------------------------------------------------

    method FindNamespaceMatches(pattern: string) returns (result: seq<string>)
      ensures forall ns :: ns in result <==> ns in namespaceLister.names && matches(pattern, ns)
    {
      result := [];
      var namespaces := namespaceLister.List();
      for i := 0 to |namespaces|
        invariant forall ns :: ns in result <==> ns in namespaces[..i] && matches(pattern, ns)
      {
        assert namespaces[..i + 1] == namespaces[..i] + [namespaces[i]];
        if matches(pattern, namespaces[i]) {
          result := result + [namespaces[i]];
        }
      }
      assert namespaces[..|namespaces|] == namespaces;
      assert forall ns :: ns in namespaces <==> ns in (set x | x in namespaces);
    }

    /** Get, then Create, then Update when the secret is already there. */
    method CreateSecret(sec: SecretDefinition, crypt: Crypt, namespace: string) returns (err: Option<SyncError>)
      modifies kube
      ensures kube.secrets == RunTask(Cfg(), store.contents, crypt, old(kube.secrets), Task(sec, namespace))
      ensures err.None? <==> Effective(Cfg(), store.contents, crypt, Task(sec, namespace))
      ensures sec.key !in store.contents ==> err == Some(StoreFailed(NotFound)) && kube.secrets == old(kube.secrets)
      ensures sec.key in store.contents && err.Some? ==>
          err == Some(ApiFailed(Denied)) && kube.secrets == old(kube.secrets)
    {
      var obj := store.Fetch(sec.key);
      if obj.Err? {
        return Some(StoreFailed(obj.error));
      }
      var secret := NewSecret(GetData(obj.value), sec, crypt, namespace);
      var failure := kube.Create(namespace, secret);
      if failure == Some(AlreadyExists) {
        failure := kube.Update(namespace, secret);
      }
      if failure.Some? {
        return Some(ApiFailed(failure.value));
      }
      return None;
    }

    /** All patterns' matches; a namespace that several patterns match is kept several times. */
    method GatherNamespaces(patterns: seq<string>) returns (matched: seq<string>)
      ensures (set ns | ns in matched) == Selected(Cfg(), patterns, namespaceLister.names)
    {
      matched := [];
      for i := 0 to |patterns|
        invariant (set ns | ns in matched) == Selected(Cfg(), patterns[..i], namespaceLister.names)
      {
        var more := FindNamespaceMatches(patterns[i]);
        assert patterns[..i + 1] == patterns[..i] + [patterns[i]];
        forall ns
          ensures ns in matched + more <==> ns in Selected(Cfg(), patterns[..i + 1], namespaceLister.names)
        {
          assert ns in matched <==> ns in Selected(Cfg(), patterns[..i], namespaceLister.names) by {
            assert ns in matched <==> ns in (set x | x in matched);
          }
          assert forall p :: p in patterns[..i + 1] <==> p in patterns[..i] || p == patterns[i];
        }
        matched := matched + more;
      }
      assert patterns[..|patterns|] == patterns;
    }

    /** One definition in every matched namespace; what fails is skipped and the loop goes on. */
    method CreateInAll(sec: SecretDefinition, crypt: Crypt, matched: seq<string>)
      modifies kube
      ensures kube.secrets == RunTasks(Cfg(), store.contents, crypt, old(kube.secrets), TasksFor(sec, matched))
    {
      ghost var goal := RunTasks(Cfg(), store.contents, crypt, kube.secrets, TasksFor(sec, matched));
      for j := 0 to |matched|
        invariant RunTasks(Cfg(), store.contents, crypt, kube.secrets, TasksFor(sec, matched[j..])) == goal
      {
        assert matched[j..][1..] == matched[j + 1..];
        assert TasksFor(sec, matched[j..])[1..] == TasksFor(sec, matched[j + 1..]);
        var _ := CreateSecret(sec, crypt, matched[j]);
      }
    }

    /** Every definition in every matched namespace. */
    method CreateSecrets(crypt: Crypt, matched: seq<string>)
      modifies kube
      ensures kube.secrets == SyncCrypt(Cfg(), store.contents, crypt, matched, old(kube.secrets))
    {
      ghost var goal := SyncCrypt(Cfg(), store.contents, crypt, matched, kube.secrets);
      for i := 0 to |crypt.secrets|
        invariant RunTasks(Cfg(), store.contents, crypt, kube.secrets, Tasks(crypt.secrets[i..], matched)) == goal
      {
        assert crypt.secrets[i..][1..] == crypt.secrets[i + 1..];
        RunTasksConcat(Cfg(), store.contents, crypt, kube.secrets,
                       TasksFor(crypt.secrets[i], matched), Tasks(crypt.secrets[i + 1..], matched));
        CreateInAll(crypt.secrets[i], crypt, matched);
      }
    }

    /**
     Errors are only logged: the handler always succeeds. Afterwards each identity holds what the crypt filed under the
     key wants there; where it wants nothing, and for a key without a crypt, everything is as it was.
     */
    method SyncHandler(key: string)
      requires IndexValid()
      modifies kube
      ensures kube.secrets
           == SyncKey(Cfg(), store.contents, namespaceLister.names, cryptLister.indexer.items, key, old(kube.secrets))
      ensures var items, names := cryptLister.indexer.items, namespaceLister.names;
              forall id :: Find(kube.secrets, id)
                        == if key in items
                           then OrElse(Desired(Cfg(), store.contents, names, items[key], id), Find(old(kube.secrets),
                               id))
                           else Find(old(kube.secrets), id)
    {
      forall id {
        SyncKeyAt(Cfg(), store.contents, namespaceLister.names, cryptLister.indexer.items, key, kube.secrets, id);
      }
      var split := SplitKey(key);
      if split.Malformed? {
        return;
      }
      var crypt := cryptLister.Crypts(split.namespace).Get(split.name);
      if crypt.Err? {
        return;
      }
      var matched := GatherNamespaces(crypt.value.namespaces);
      SyncIsReconciled(Cfg(), store.contents, crypt.value, namespaceLister.names, matched, kube.secrets);
      CreateSecrets(crypt.value, matched);
    }

    /**
     One round of a worker: `more` is false only when the queue is closed and empty. The key taken is released on
     every path, and waits again if it was marked dirty meanwhile.
     */
    method ProcessNextWorkItem() returns (more: bool)
      requires IndexValid() && (queue.waiting != [] || queue.closed)
      modifies queue, kube
      ensures old(queue.waiting) == [] ==>
                !more && queue.Model() == old(queue.Model()) && kube.secrets == old(kube.secrets)
      ensures old(queue.waiting) != [] ==>
                && more
                && queue.Model() == Done(Take(old(queue.Model())), old(queue.waiting)[0])
                && kube.secrets == SyncKey(Cfg(), store.contents, namespaceLister.names, cryptLister.indexer.items,
                                           old(queue.waiting)[0], old(kube.secrets))
      ensures old(queue.waiting) != [] ==>
                var items, names, key := cryptLister.indexer.items, namespaceLister.names, old(queue.waiting)[0];
                forall id :: Find(kube.secrets, id)
                          == if key in items
                             then OrElse(Desired(Cfg(), store.contents, names, items[key], id),
                                 Find(old(kube.secrets), id))
                             else Find(old(kube.secrets), id)
    {
      var key := queue.Get();
      if key.None? {
        return false;
      }
      SyncHandler(key.value);
      queue.Release(key.value);
      return true;
    }

    /** What syncing the keys one after the other leaves at each identity. */
    lemma SyncedInOrder(keys: seq<string>, api: Secrets)
      requires IndexValid()
      ensures var items, names := cryptLister.indexer.items, namespaceLister.names;
              var after := SyncKeys(Cfg(), store.contents, names, items, keys, api);
              && (forall id :: (forall k :: k in keys && k in items ==>
                                  Desired(Cfg(), store.contents, names, items[k], id).None?) ==>
                    Find(after, id) == Find(api, id))
              && (forall id, i ::
                    && 0 <= i < |keys| && keys[i] in items
                    && Desired(Cfg(), store.contents, names, items[keys[i]], id).Some?
                    && (forall k :: k in keys[i + 1..] && k in items ==>
                          Desired(Cfg(), store.contents, names, items[k], id).None?)
                    ==> Find(after, id) == Desired(Cfg(), store.contents, names, items[keys[i]], id))
    {
      var items, names := cryptLister.indexer.items, namespaceLister.names;
      forall id | forall k :: k in keys && k in items ==> Desired(Cfg(), store.contents, names, items[k], id).None? {
        SyncKeysLeave(Cfg(), store.contents, names, items, keys, api, id);
      }
      forall id, i: nat | i < |keys| && keys[i] in items
                          && Desired(Cfg(), store.contents, names, items[keys[i]], id).Some?
                          && (forall k :: k in keys[i + 1..] && k in items ==>
                                Desired(Cfg(), store.contents, names, items[k], id).None?) {
        LastKeyDecides(Cfg(), store.contents, names, items, keys, api, id, i);
      }
    }

    /** A worker's loop over a closed queue with nobody else about: every waiting key is synced once, in order. */
    method RunWorker()
      requires IndexValid() && queue.closed && WellFormed(queue.Model())
      modifies queue, kube
      ensures queue.closed && queue.waiting == [] && queue.processing == old(queue.processing)
      ensures WellFormed(queue.Model())
      ensures kube.secrets == SyncKeys(Cfg(), store.contents, namespaceLister.names, cryptLister.indexer.items,
                                       old(queue.waiting), old(kube.secrets))
      ensures var items, names, keys := cryptLister.indexer.items, namespaceLister.names, old(queue.waiting);
              && (forall id :: (forall k :: k in keys && k in items ==>
                                  Desired(Cfg(), store.contents, names, items[k], id).None?) ==>
                    Find(kube.secrets, id) == Find(old(kube.secrets), id))
              && (forall id, i ::
                    && 0 <= i < |keys| && keys[i] in items
                    && Desired(Cfg(), store.contents, names, items[keys[i]], id).Some?
                    && (forall k :: k in keys[i + 1..] && k in items ==>
                          Desired(Cfg(), store.contents, names, items[k], id).None?)
                    ==> Find(kube.secrets, id) == Desired(Cfg(), store.contents, names, items[keys[i]], id))
    {
      ghost var items, names := cryptLister.indexer.items, namespaceLister.names;
      ghost var goal := SyncKeys(Cfg(), store.contents, names, items, queue.waiting, kube.secrets);
      SyncedInOrder(queue.waiting, kube.secrets);
      var more := true;
      while more
        invariant queue.closed && WellFormed(queue.Model()) && queue.processing == old(queue.processing)
        invariant SyncKeys(Cfg(), store.contents, names, items, queue.waiting, kube.secrets) == goal
        invariant !more ==> queue.waiting == []
        decreases |queue.waiting|, more
      {
        if queue.waiting != [] {
          TakeKeepsWellFormed(queue.Model());
          DoneKeepsWellFormed(Take(queue.Model()), queue.waiting[0]);
        }
        more := ProcessNextWorkItem();
      }
    }

    /** Shutting down lets a worker finish what waits at that moment. */
    method ShutDownAndDrain()
      requires IndexValid() && WellFormed(queue.Model())
      modifies queue, kube
      ensures queue.closed && queue.waiting == [] && queue.processing == old(queue.processing)
      ensures kube.secrets == SyncKeys(Cfg(), store.contents, namespaceLister.names, cryptLister.indexer.items,
                                       old(queue.waiting), old(kube.secrets))
      ensures var items, names, keys := cryptLister.indexer.items, namespaceLister.names, old(queue.waiting);
              && (forall id :: (forall k :: k in keys && k in items ==>
                                  Desired(Cfg(), store.contents, names, items[k], id).None?) ==>
                    Find(kube.secrets, id) == Find(old(kube.secrets), id))
              && (forall id, i ::
                    && 0 <= i < |keys| && keys[i] in items
                    && Desired(Cfg(), store.contents, names, items[keys[i]], id).Some?
                    && (forall k :: k in keys[i + 1..] && k in items ==>
                          Desired(Cfg(), store.contents, names, items[k], id).None?)
                    ==> Find(kube.secrets, id) == Desired(Cfg(), store.contents, names, items[keys[i]], id))
    {
      queue.Close();
      RunWorker();
    }

    // --- Event handlers ---------------------------------------------------------------------------------------

    method EnqueueCrypt(crypt: Crypt)
      modifies queue
      ensures queue.Model() == AddRateLimited(old(queue.Model()), KeyOf(crypt))
    {
      queue.AddLater(KeyOf(crypt));
    }

    /**
     An added, updated or resynced crypt: the informer files it before its handler enqueues it, so whoever takes the key
     finds this very crypt.
     */
    method CryptAdded(crypt: Crypt)
      requires IndexValid() && WellNamed(crypt)
      modifies cryptLister.indexer, queue
      ensures IndexValid() && cryptLister.indexer.items == old(cryptLister.indexer.items)[KeyOf(crypt) := crypt]
      ensures queue.Model() == AddRateLimited(old(queue.Model()), KeyOf(crypt))
      ensures Lookup(cryptLister.indexer.items, KeyOf(crypt)) == Some(crypt)
    {
      cryptLister.indexer.Store(crypt);
      EnqueueCrypt(crypt);
      LookupFindsEnqueued(cryptLister.indexer.items, crypt);
    }

    /** Enqueues the first matching crypt of a list, and leaves the loop with it. */
    method EnqueueFirstMatch(list: seq<Crypt>, name: string)
      modifies queue
      ensures queue.Model() == (var first := FirstMatch(Cfg(), list, name);
                                if first.Some? then AddRateLimited(old(queue.Model()), KeyOf(first.value))
                                else old(queue.Model()))
    {
      label Out:
      for i := 0 to |list|
        invariant queue.Model() == old(queue.Model())
        invariant FirstMatch(Cfg(), list, name) == FirstMatch(Cfg(), list[i..], name)
      {
        assert list[i..][1..] == list[i + 1..];
        var patterns := list[i].namespaces;
        for j := 0 to |patterns|
          invariant queue.Model() == old(queue.Model())
          invariant forall p :: p in patterns[..j] ==> !matches(p, name)
        {
          if matches(patterns[j], name) {
            EnqueueCrypt(list[i]);
            break Out;
          }
        }
        assert patterns[..|patterns|] == patterns;
      }
    }

    /** One round of the outer loop: the crypts of one home, as they happen to be listed. */
    method EnqueueFromHome(home: string, name: string) returns (ghost list: seq<Crypt>)
      requires IndexValid() && home != ""
      modifies queue
      ensures IsListing(list, CryptsIn(cryptLister.indexer.items, home))
      ensures queue.Model() == (var first := FirstMatch(Cfg(), list, name);
                                if first.Some? then AddRateLimited(old(queue.Model()), KeyOf(first.value))
                                else old(queue.Model()))
    {
      var cryptList := cryptLister.Crypts(home).List(Everything());
      ghost var crypts := CryptsIn(cryptLister.indexer.items, home);
      assert Chosen(crypts, Everything()) == crypts;
      EnqueueFirstMatch(cryptList, name);
      list := cryptList;
    }

    /** The listings it happened to get come back as ghosts, so that callers can speak of their order. */
    method HandleNamespaceAdd(name: string) returns (ghost homes: seq<string>, ghost lists: map<string, seq<Crypt>>)
      requires IndexValid() && "" !in namespaceLister.names
      modifies queue
      ensures ShowsCaches(homes, lists, namespaceLister.names, cryptLister.indexer.items)
      ensures queue.Model() == EnqueueAll(old(queue.Model()), CryptsForNamespace(Cfg(), homes, lists, name))
    {
      var nsList := namespaceLister.List();
      homes, lists := nsList, map[];
      for i := 0 to |nsList|
        invariant forall h :: h in nsList[..i] ==>
                    h in lists && IsListing(lists[h], CryptsIn(cryptLister.indexer.items, h))
        invariant queue.Model() == EnqueueAll(old(queue.Model()), CryptsForNamespace(Cfg(), nsList[..i], lists, name))
      {
        assert nsList[..i + 1] == nsList[..i] + [nsList[i]];
        assert nsList[i] in (set x | x in nsList);
        ghost var cryptList := EnqueueFromHome(nsList[i], name);
        CryptsForNamespaceSnoc(Cfg(), nsList[..i], lists, name, nsList[i], cryptList);
        ghost var first := FirstMatch(Cfg(), cryptList, name);
        ghost var before := CryptsForNamespace(Cfg(), nsList[..i], lists, name);
        EnqueueAllConcat(old(queue.Model()), before, if first.Some? then [first.value] else []);
        lists := lists[nsList[i] := cryptList];
      }
      assert nsList[..|nsList|] == nsList;
    }

    /** The crypt's namespaces are visited in API order, each once, and the search stops at the first hit. */
    method FindOwner(ownerName: string) returns (crypt: Option<Crypt>)
      requires IndexValid()
      ensures crypt == OwnerScan(cryptLister.indexer.items, NamespacesOf(cryptClient.items), ownerName)
    {
      crypt := None;
      ghost var items, listed := cryptLister.indexer.items, NamespacesOf(cryptClient.items);
      var namespacesChecked: set<string> := {};
      for i := 0 to |cryptClient.items|
        invariant crypt.None?
        invariant forall h :: h in namespacesChecked ==> !HasCrypt(items, h, ownerName)
        invariant OwnerScan(items, listed, ownerName) == OwnerScan(items, listed[i..], ownerName)
      {
        assert listed[i..][1..] == listed[i + 1..];
        var namespace := cryptClient.items[i].namespace;
        if namespace in namespacesChecked {
          assert !HasCrypt(items, namespace, ownerName);
          continue;
        }
        namespacesChecked := namespacesChecked + {namespace};
        var found := cryptLister.Crypts(namespace).Get(ownerName);
        if found.Ok? {
          return Some(found.value);
        }
      }
    }

    method HandleSecretDelete(deleted: Deleted)
      requires IndexValid()
      modifies queue
      ensures deleted.obj.OtherObject? ==> queue.Model() == old(queue.Model())
      ensures deleted.obj.SecretObject? ==>
                var listed := NamespacesOf(cryptClient.items);
                var owner := OwnerOfDeleted(cryptLister.indexer.items, listed, deleted.obj.secret);
                queue.Model() == if owner.Some? then AddRateLimited(old(queue.Model()), KeyOf(owner.value))
                                 else old(queue.Model())
    {
      if deleted.obj.OtherObject? {
        return;
      }
      var ownerRef := ControllerOf(deleted.obj.secret.owners);
      if ownerRef.None? || ownerRef.value.kind != CRYPT_KIND {
        return;
      }
      var crypt := FindOwner(ownerRef.value.name);
      if crypt.None? {
        return;
      }
      EnqueueCrypt(crypt.value);
    }
  }
}
