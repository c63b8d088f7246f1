/**
 Concrete cases in which a promise does not hold: the properties proved elsewhere need the conditions they state.
 Each lost wake-up happens at the end of a run from an initial state, and starts from a state that satisfies the wake-up
 invariant, so it is the step in question that loses it.
 */
module Counterexamples {
  import opened Common
  import opened Resources
  import opened QueueKeys
  import opened Stores
  import opened WorkQueues
  import opened Reconcile
  import opened Handlers
  import opened Machine
  import opened Discipline
  import opened WakeUp
  import opened Rest

  /** Patterns are plain names, and the API takes every secret. */
  ghost function Plain(): Config {
    Config((pattern, name) => pattern == name, secret => false)
  }

  function Db(): SecretDefinition {
    SecretDefinition("db", "", "prod/db", None, None)
  }

  const DB := SecretId("prod", "db")

  /** A store that has what the definition asks for. */
  function Stocked(): Contents {
    map["prod/db" := None]
  }

  /** A crypt that wants the secret `db` in the given namespaces. */
  function Asks(home: string, name: string, namespaces: seq<string>): Crypt {
    Crypt(home, name, "uid", [Db()], namespaces)
  }

  predicate AsksForDb(crypt: Crypt) {
    WellNamed(crypt) && crypt.secrets == [Db()] && forall p :: p in crypt.namespaces ==> p == "prod"
  }

  /** All the crypts cached here ask for is the one secret. */
  ghost predicate OnlyDb(s: State) {
    forall k :: k in s.crypts ==> AsksForDb(s.crypts[k])
  }

  lemma WantsOnlyDb(s: State, key: string, id: SecretId)
    requires OnlyDb(s) && Wants(Plain(), s, key, id)
    ensures id == DB
  {
  }

  lemma WantsDb(s: State, key: string)
    requires key in s.crypts && s.crypts[key].secrets == [Db()] && s.crypts[key].namespaces == ["prod"]
    requires "prod" in s.namespaces
    ensures Wants(Plain(), s, key, DB)
  {
    assert Db() in s.crypts[key].secrets && "prod" in s.crypts[key].namespaces;
  }

  /** A state in which the one secret exists, or all its crypts are awaited. */
  lemma IsFine(s: State)
    requires ValidCache(s.crypts) && OnlyDb(s) && Disciplined(s)
    requires DB in s.secrets || forall k :: k in s.crypts ==> Awaited(Plain(), s, k, DB)
    ensures WakeInvariant(Plain(), s)
  {
    hide Awaited;
    forall key, id | Missing(Plain(), s, key, id)
      ensures Awaited(Plain(), s, key, id)
    {
      WantsOnlyDb(s, key, id);
    }
  }

  lemma DistinctKeys(a: Crypt, b: Crypt)
    requires WellNamed(a) && WellNamed(b) && (a.namespace != b.namespace || a.name != b.name)
    ensures KeyOf(a) != KeyOf(b)
  {
    KeysAreUnique(a.namespace, a.name, b.namespace, b.name);
  }

  // --- Getting there -------------------------------------------------------------------------------------

  /** Three idle workers, as in `main`, an empty store, and the secrets that happen to exist. */
  ghost function Start(secrets: Secrets): State {
    State(map[], {}, map[], secrets, Empty(), multiset{}, [Idle, Idle, Idle], 0, [])
  }

  ghost predicate HandsEmpty(workers: seq<Worker>) {
    forall i :: 0 <= i < |workers| ==> !workers[i].Writing()
  }

  /** On the way: with an empty store nobody ever has a secret in hand. */
  ghost predicate Staged(s: State) {
    && Reachable(Plain(), s) && Disciplined(s) && Manned(s) && ValidCache(s.crypts) && OnlyDb(s)
    && !s.queue.closed && s.store == map[] && HandsEmpty(s.workers)
  }

  predicate IsStaging(step: Step) {
    IsInternal(step) || step.NamespaceCached? || (step.CryptCached? && AsksForDb(step.crypt))
  }

  lemma NothingFetched(s: State, step: Step)
    requires Enabled(s, step) && IsStaging(step) && s.store == map[] && HandsEmpty(s.workers)
    ensures HandsEmpty(WorkersAfter(Plain(), s, step))
    ensures SecretsAfter(s, step) == s.secrets && StoreAfter(s, step) == map[]
  {
    hide ShowsCaches;
  }

  lemma StagingStaysOpen(s: State, step: Step)
    requires Enabled(s, step) && IsStaging(step) && !s.queue.closed
    ensures !QueueAfter(Plain(), s, step).closed
  {
    hide Enabled;
    if IsInternal(step) {
      OpenStaysOpen(Plain(), s, step);
    }
  }

  lemma StagedStep(s: State, step: Step)
    requires Staged(s) && Enabled(s, step) && IsStaging(step)
    ensures Staged(Apply(Plain(), s, step))
  {
    hide Enabled, Disciplined, Manned, Reachable, ValidCache, HandsEmpty;
    hide QueueAfter, WorkersAfter, EventsAfter, SecretsAfter, LogAfter, StoreAfter;
    NextIsReachable(Plain(), s, step, Apply(Plain(), s, step));
    DisciplineStep(Plain(), s, step);
    MannedStep(Plain(), s, step);
    CacheStaysValid(s, step);
    StagingStaysOpen(s, step);
    NothingFetched(s, step);
  }

  /** Left alone, a staged state comes to rest, and nothing but the controller's own books has changed. */
  lemma {:induction false} Settle(s: State) returns (t: State)
    requires Staged(s)
    ensures Staged(t) && AtRest(t)
    ensures t.crypts == s.crypts && t.namespaces == s.namespaces && t.secrets == s.secrets
    decreases LeftIn(s).events, LeftIn(s).delayed, LeftIn(s).dirty, LeftIn(s).phase,
              LeftIn(s).remaining, LeftIn(s).stage, LeftIn(s).alive
  {
    hide Enabled, LeftIn, CryptsAfter, NamespacesAfter, SecretsAfter, AtRest;
    t := s;
    if !AtRest(s) {
      var step := CanStep(s);
      StagedStep(s, step);
      InternalStepDescends(Plain(), s, step);
      InternalKeepsCaches(Plain(), s, step);
      NothingFetched(s, step);
      t := Settle(Apply(Plain(), s, step));
    }
  }

  /** At rest in some run, with everything in the store that a crypt asks for. */
  ghost predicate Calm(s: State) {
    && Reachable(Plain(), s) && Disciplined(s) && ValidCache(s.crypts) && OnlyDb(s)
    && s.store == Stocked() && !s.queue.closed && AtRest(s)
  }

  lemma Restock(s: State) returns (t: State)
    requires Staged(s) && AtRest(s)
    ensures Calm(t) && t == s.(store := Stocked(), clock := s.clock + 1)
  {
    hide Reachable;
    t := Apply(Plain(), s, StoreChanged(Stocked()));
    NextIsReachable(Plain(), s, StoreChanged(Stocked()), t);
  }

  lemma StartIsStaged(secrets: Secrets)
    ensures Staged(Start(secrets))
  {
    hide Reachable;
    InitIsReachable(Plain(), Start(secrets));
    InitDisciplined(Start(secrets));
    assert Start(secrets).workers[0] == Idle;
  }

  lemma AddNamespace(s: State, name: string) returns (t: State)
    requires Staged(s) && name !in s.namespaces
    ensures Staged(t) && t.crypts == s.crypts && t.namespaces == s.namespaces + {name} && t.secrets == s.secrets
  {
    hide Staged;
    t := Apply(Plain(), s, NamespaceCached(name));
    StagedStep(s, NamespaceCached(name));
  }

  lemma AddCrypt(s: State, crypt: Crypt) returns (t: State)
    requires Staged(s) && AsksForDb(crypt)
    ensures Staged(t) && t.crypts == s.crypts[KeyOf(crypt) := crypt] && t.namespaces == s.namespaces
    ensures t.secrets == s.secrets
  {
    hide Staged;
    t := Apply(Plain(), s, CryptCached(crypt));
    StagedStep(s, CryptCached(crypt));
  }

  lemma {:induction false} AddNamespaces(secrets: Secrets, names: seq<string>) returns (t: State)
    requires NoDuplicates(names)
    ensures Staged(t) && t.crypts == map[] && t.namespaces == (set n | n in names) && t.secrets == secrets
  {
    hide Staged;
    t := Start(secrets);
    if names == [] {
      StartIsStaged(secrets);
    } else {
      var last := |names| - 1;
      t := AddNamespaces(secrets, names[..last]);
      assert names == names[..last] + [names[last]];
      t := AddNamespace(t, names[last]);
    }
  }

  /** A run in which the namespaces and the two crypts are cached, everything settles, and the store is stocked. */
  lemma Stage(secrets: Secrets, names: seq<string>, a: Crypt, b: Crypt) returns (s: State)
    requires NoDuplicates(names) && AsksForDb(a) && AsksForDb(b)
    ensures Calm(s) && s.secrets == secrets && s.namespaces == (set n | n in names)
    ensures s.crypts == map[KeyOf(a) := a, KeyOf(b) := b]
  {
    hide Staged, AtRest, Calm, AsksForDb, KeyOf;
    s := AddNamespaces(secrets, names);
    s := AddCrypt(s, a);
    s := AddCrypt(s, b);
    s := Settle(s);
    s := Restock(s);
  }

  lemma CalmIsQuiet(s: State)
    requires Calm(s)
    ensures s.queue == Empty() && AllIdle(s) && s.events == multiset{}
  {
    assert HeldKeys(s.workers) == {};
    assert (set k | k in s.queue.waiting) == {};
    assert s.queue.dirty == s.queue.dirty - s.queue.processing;
  }

  lemma CalmAwaitsNobody(s: State, key: string)
    requires Calm(s)
    ensures !Awaited(Plain(), s, key, DB)
  {
    CalmIsQuiet(s);
  }

  // --- Deletions -----------------------------------------------------------------------------------------

  /** The deletion and its handling are two more steps of the run. */
  lemma AfterDeletionIsReachable(s: State, listed: seq<string>)
    requires Reachable(Plain(), s) && DB in s.secrets
    ensures Reachable(Plain(), AfterDeletion(Plain(), s, DB, listed))
  {
    hide Reachable, Apply;
    var deleted := Apply(Plain(), s, SecretDeleted(DB));
    DeletionFrame(Plain(), s, DB);
    NextIsReachable(Plain(), s, SecretDeleted(DB), deleted);
    NextIsReachable(Plain(), deleted, HandleDelete(s.secrets[DB], listed), AfterDeletion(Plain(), s, DB, listed));
  }

  /**
   Two crypts share a target. The one that wrote it last hears of its deletion, the other never does, though the store
   has what it asks for.
   */
  lemma SharedTargetLosesWakeUp() returns (s: State, after: State, key: string)
    ensures Reachable(Plain(), s) && WakeInvariant(Plain(), s) && DB in s.secrets && Wants(Plain(), s, key, DB)
    ensures after == AfterDeletion(Plain(), s, DB, ["home"]) && Reachable(Plain(), after) && after.store == Stocked()
    ensures Missing(Plain(), after, key, DB) && !Awaited(Plain(), after, key, DB)
  {
    hide Apply, Awaited, WakeInvariant, Missing, ListedFirst, Reachable, AtRest;
    var a, b := Asks("home", "a", ["prod"]), Asks("home", "b", ["prod"]);
    key := KeyOf(a);
    DistinctKeys(a, b);
    s := Stage(map[DB := NewSecret(map[], Db(), b, "prod")], ["home", "prod"], a, b);
    IsFine(s);
    WantsDb(s, key);
    CalmAwaitsNobody(s, key);
    NewSecretIsControlled(map[], Db(), b, "prod", "a");
    HandledDeletionIsNoticedIff(Plain(), s, key, DB, ["home"]);
    AfterDeletionIsReachable(s, ["home"]);
    StoreAfterDeletion(s, ["home"]);
    after := AfterDeletion(Plain(), s, DB, ["home"]);
  }

  lemma StoreAfterDeletion(s: State, listed: seq<string>)
    requires DB in s.secrets
    ensures AfterDeletion(Plain(), s, DB, listed).store == s.store
  {
  }

  /**
   Two crypts of one name in different namespaces, one target, wanted and written by the second alone. The deletion
   wakes the first, which wants nothing, because its namespace is listed first.
   */
  lemma NamesakeTakesTheWakeUp() returns (s: State, after: State, other: Crypt, key: string)
    ensures Reachable(Plain(), s) && WakeInvariant(Plain(), s) && DB in s.secrets && Wants(Plain(), s, key, DB)
    ensures forall k :: k in s.crypts && k != key ==> !Targets(Plain(), s.crypts[k], DB)
    ensures ControlledBy(s.secrets[DB], s.crypts[key].name)
    ensures OwnerOfDeleted(s.crypts, ["home1", "home2"], s.secrets[DB]) == Some(other) && KeyOf(other) != key
    ensures after == AfterDeletion(Plain(), s, DB, ["home1", "home2"]) && Reachable(Plain(), after)
    ensures after.store == Stocked()
    ensures Missing(Plain(), after, key, DB) && !Awaited(Plain(), after, key, DB)
  {
    hide Apply, Awaited, WakeInvariant, Missing, Reachable, AtRest;
    var owner, listed := Asks("home2", "x", ["prod"]), ["home1", "home2"];
    other := Asks("home1", "x", []);
    key := KeyOf(owner);
    DistinctKeys(other, owner);
    s := Stage(map[DB := NewSecret(map[], Db(), owner, "prod")], ["home1", "home2", "prod"], other, owner);
    IsFine(s);
    WantsDb(s, key);
    CalmAwaitsNobody(s, key);
    NewSecretIsControlled(map[], Db(), owner, "prod", "x");
    HandledDeletionIsNoticedIff(Plain(), s, key, DB, listed);
    assert HasCrypt(s.crypts, listed[0], "x") && listed[0] == other.namespace;
    DeletedSecretWakes(s.crypts, listed, s.secrets[DB], other);
    AfterDeletionIsReachable(s, listed);
    StoreAfterDeletion(s, listed);
    after := AfterDeletion(Plain(), s, DB, listed);
  }

  // --- Namespace additions -------------------------------------------------------------------------------

  lemma EventAwaits(s: State)
    requires NamespaceEvent("prod") in s.events
    ensures forall k :: k in s.crypts ==> Awaited(Plain(), s, k, DB)
  {
    assert forall k :: k in s.crypts ==> Wakes(NamespaceEvent("prod"), k, s.crypts[k].name, DB);
  }

  /** The namespace is added to a calm state: everybody who wants it is awaited, and nothing else is under way. */
  lemma AddProd(calm: State, key: string) returns (s: State)
    requires Calm(calm) && DB !in calm.secrets && "prod" !in calm.namespaces
    requires key in calm.crypts && calm.crypts[key].namespaces == ["prod"]
    ensures Reachable(Plain(), s) && WakeInvariant(Plain(), s)
    ensures Missing(Plain(), s, key, DB) && Awaited(Plain(), s, key, DB)
    ensures s == calm.(namespaces := calm.namespaces + {"prod"},
                       events := multiset{NamespaceEvent("prod")}, clock := calm.clock + 1)
    ensures s.queue == Empty() && AllIdle(s)
  {
    hide Reachable, Awaited, Wants;
    CalmIsQuiet(calm);
    s := Apply(Plain(), calm, NamespaceCached("prod"));
    NextIsReachable(Plain(), calm, NamespaceCached("prod"), s);
    EventAwaits(s);
    IsFine(s);
    WantsDb(s, key);
  }

  /** Handling the last event enqueues the given crypts, and nothing else is under way. */
  lemma OnlyEnqueuedAreAwaited(s: State, homes: seq<string>, lists: map<string, seq<Crypt>>, key: string)
    requires Enabled(s, HandleNamespace("prod", homes, lists))
    requires s.events == multiset{NamespaceEvent("prod")} && AllIdle(s) && s.queue == Empty()
    requires forall c :: c in CryptsForNamespace(Plain(), homes, lists, "prod") ==> KeyOf(c) != key
    requires Missing(Plain(), s, key, DB)
    ensures var after := Apply(Plain(), s, HandleNamespace("prod", homes, lists));
            Missing(Plain(), after, key, DB) && !Awaited(Plain(), after, key, DB)
  {
    hide EnqueueAll;
    var enqueued := CryptsForNamespace(Plain(), homes, lists, "prod");
    EnqueueAllKeys(s.queue, enqueued);
    assert key !in (set c | c in enqueued :: KeyOf(c));
    assert Apply(Plain(), s, HandleNamespace("prod", homes, lists)).events == multiset{};
  }

  /** Two crypts of one home select the new namespace: the loop over the home's crypts ends with the first. */
  lemma BreakPassesOver() returns (s: State, homes: seq<string>, lists: map<string, seq<Crypt>>, key: string)
    ensures Reachable(Plain(), s) && WakeInvariant(Plain(), s) && s.store == Stocked()
    ensures Enabled(s, HandleNamespace("prod", homes, lists))
    ensures forall k :: k in s.crypts ==> s.crypts[k].namespace in s.namespaces
    ensures Missing(Plain(), s, key, DB) && Awaited(Plain(), s, key, DB)
    ensures var after := Apply(Plain(), s, HandleNamespace("prod", homes, lists));
            Missing(Plain(), after, key, DB) && !Awaited(Plain(), after, key, DB)
  {
    hide Apply, Awaited, WakeInvariant, Missing, ShowsCaches, FirstMatch, Reachable, AtRest, AllIdle;
    var a, b := Asks("home", "a", ["prod"]), Asks("home", "b", ["prod"]);
    homes, lists, key := ["home", "prod"], map["home" := [a, b], "prod" := []], KeyOf(b);
    DistinctKeys(a, b);
    var calm := Stage(map[], ["home"], a, b);
    s := AddProd(calm, key);
    HomeAndProdShown(s, a, b);
    assert "prod" in a.namespaces;
    CryptsForHomeAndProd(lists, a, b);
    OnlyEnqueuedAreAwaited(s, homes, lists, key);
  }

  lemma HomeAndProdShown(s: State, a: Crypt, b: Crypt)
    requires s.crypts == map[KeyOf(a) := a, KeyOf(b) := b] && s.namespaces == {"home", "prod"}
    requires KeyOf(a) != KeyOf(b) && a != b && a.namespace == b.namespace == "home"
    ensures ShowsCaches(["home", "prod"], map["home" := [a, b], "prod" := []], s.namespaces, s.crypts)
  {
    assert CryptsIn(s.crypts, "home") == {a, b} by {
      assert KeyOf(a) in s.crypts && KeyOf(b) in s.crypts;
    }
    assert (set c | c in [a, b]) == {a, b};
    assert (set h | h in ["home", "prod"]) == {"home", "prod"};
  }

  lemma CryptsForHomeAndProd(lists: map<string, seq<Crypt>>, a: Crypt, b: Crypt)
    requires lists == map["home" := [a, b], "prod" := []] && SelectsNamespace(Plain(), a, "prod")
    ensures CryptsForNamespace(Plain(), ["home", "prod"], lists, "prod") == [a]
  {
    assert FirstMatch(Plain(), lists["home"], "prod") == Some(a);
    assert FirstMatch(Plain(), lists["prod"], "prod") == None;
    assert ["prod"][1..] == [] && ["home", "prod"][1..] == ["prod"];
    assert CryptsForNamespace(Plain(), ["prod"], lists, "prod") == [];
  }

  /** The crypt's own namespace has not reached the cache yet: nobody looks at the crypt. */
  lemma UncachedHomeIsPassedOver() returns (s: State, homes: seq<string>, lists: map<string, seq<Crypt>>, key: string)
    ensures Reachable(Plain(), s) && WakeInvariant(Plain(), s) && s.store == Stocked()
    ensures Enabled(s, HandleNamespace("prod", homes, lists))
    ensures OneConcernedPerHome(Plain(), s.namespaces, s.crypts, "prod")
    ensures Missing(Plain(), s, key, DB) && Awaited(Plain(), s, key, DB)
    ensures var after := Apply(Plain(), s, HandleNamespace("prod", homes, lists));
            Missing(Plain(), after, key, DB) && !Awaited(Plain(), after, key, DB)
  {
    hide Apply, Awaited, WakeInvariant, Missing, Reachable, AtRest, AllIdle;
    var a := Asks("home", "a", ["prod"]);
    homes, lists, key := ["prod"], map["prod" := []], KeyOf(a);
    var calm := Stage(map[], [], a, a);
    s := AddProd(calm, key);
    ProdShown(s, a);
    OnlyEnqueuedAreAwaited(s, homes, lists, key);
  }

  lemma ProdShown(s: State, a: Crypt)
    requires s.crypts == map[KeyOf(a) := a] && s.namespaces == {"prod"} && a.namespace == "home"
    ensures ShowsCaches(["prod"], map["prod" := []], s.namespaces, s.crypts)
    ensures CryptsForNamespace(Plain(), ["prod"], map["prod" := []], "prod") == []
    ensures OneConcernedPerHome(Plain(), s.namespaces, s.crypts, "prod")
  {
    assert (set h | h in ["prod"]) == {"prod"};
    assert CryptsIn(s.crypts, "prod") == {};
  }

  // --- Failures ------------------------------------------------------------------------------------------

  /** One namespace, an empty store, no secrets; what varies while the first worker syncs a crypt. */
  ghost function Scene(cache: map<string, Crypt>, events: multiset<Event>, queue: Queue<string>, worker: Worker,
                       clock: nat): State {
    State(cache, {"prod"}, map[], map[], queue, events, [worker, Idle, Idle], clock, [])
  }

  /** A step that is possible and does what it should leads on. */
  lemma Onward(s: State, step: Step, after: State)
    requires Reachable(Plain(), s) && Enabled(s, step) && Apply(Plain(), s, step) == after
    ensures Reachable(Plain(), after)
  {
    NextIsReachable(Plain(), s, step, after);
  }

  lemma NobodyIsConcerned(s: State)
    requires s == Scene(map[], multiset{NamespaceEvent("prod")}, Empty(), Idle, 1)
    ensures Enabled(s, HandleNamespace("prod", ["prod"], map["prod" := []]))
    ensures CryptsForNamespace(Plain(), ["prod"], map["prod" := []], "prod") == []
  {
    assert (set h | h in ["prod"]) == {"prod"};
    assert CryptsIn(s.crypts, "prod") == {};
    assert FirstMatch(Plain(), [], "prod") == None && ["prod"][1..] == [];
  }

  lemma ProdCached()
    ensures Reachable(Plain(), Scene(map[], multiset{}, Empty(), Idle, 2))
  {
    hide Reachable, CryptsForNamespace, ShowsCaches;
    var s0, s1 := Start(map[]), Scene(map[], multiset{NamespaceEvent("prod")}, Empty(), Idle, 1);
    InitIsReachable(Plain(), s0);
    Onward(s0, NamespaceCached("prod"), s1);
    NobodyIsConcerned(s1);
    Onward(s1, HandleNamespace("prod", ["prod"], map["prod" := []]), Scene(map[], multiset{}, Empty(), Idle, 2));
  }

  lemma CryptFiled(a: Crypt)
    requires WellNamed(a)
    ensures Reachable(Plain(), Scene(map[KeyOf(a) := a], multiset{CryptEvent(a)}, Empty(), Idle, 3))
  {
    hide Reachable, KeyOf;
    ProdCached();
    Onward(Scene(map[], multiset{}, Empty(), Idle, 2), CryptCached(a),
           Scene(map[KeyOf(a) := a], multiset{CryptEvent(a)}, Empty(), Idle, 3));
  }

  lemma CryptEnqueued(a: Crypt)
    requires WellNamed(a)
    ensures Reachable(Plain(), Scene(map[KeyOf(a) := a], multiset{}, Empty().(delayed := {KeyOf(a)}), Idle, 4))
  {
    hide Reachable, KeyOf;
    CryptFiled(a);
    var cache := map[KeyOf(a) := a];
    Onward(Scene(cache, multiset{CryptEvent(a)}, Empty(), Idle, 3), HandleCrypt(a),
           Scene(cache, multiset{}, Empty().(delayed := {KeyOf(a)}), Idle, 4));
  }

  ghost function Holding(key: string): Queue<string> {
    Queue({}, [], {}, {key}, false)
  }

  lemma CryptTaken(a: Crypt)
    requires WellNamed(a)
    ensures Reachable(Plain(), Scene(map[KeyOf(a) := a], multiset{}, Holding(KeyOf(a)), Taken(KeyOf(a)), 6))
  {
    hide Reachable, KeyOf;
    CryptEnqueued(a);
    var key, cache := KeyOf(a), map[KeyOf(a) := a];
    var s5 := Scene(cache, multiset{}, Empty().(waiting := [key], dirty := {key}), Idle, 5);
    Onward(Scene(cache, multiset{}, Empty().(delayed := {key}), Idle, 4), DelayOver(key), s5);
    Onward(s5, TakeKey(0), Scene(cache, multiset{}, Holding(key), Taken(key), 6));
  }

  lemma CryptRead(a: Crypt)
    requires AsksForDb(a) && a.namespaces == ["prod"]
    ensures Reachable(Plain(), Scene(map[KeyOf(a) := a], multiset{}, Holding(KeyOf(a)),
                                     Matching(KeyOf(a), a, 6, ["prod"], []), 7))
  {
    hide Reachable, KeyOf, Lookup;
    CryptTaken(a);
    var key, cache := KeyOf(a), map[KeyOf(a) := a];
    assert ValidCache(cache);
    LookupFindsEnqueued(cache, a);
    Onward(Scene(cache, multiset{}, Holding(key), Taken(key), 6), ReadCrypt(0),
           Scene(cache, multiset{}, Holding(key), Matching(key, a, 6, ["prod"], []), 7));
  }

  lemma ProdMatches(pattern: string, listing: seq<string>)
    requires pattern == "prod" && listing == ["prod"]
    ensures FilterMatches(Plain(), pattern, listing) == ["prod"]
  {
    assert listing[1..] == [];
    assert FilterMatches(Plain(), pattern, listing[1..]) == [];
  }

  lemma PatternMatched(a: Crypt)
    requires AsksForDb(a) && a.namespaces == ["prod"]
    ensures Reachable(Plain(), Scene(map[KeyOf(a) := a], multiset{}, Holding(KeyOf(a)),
                                     Matching(KeyOf(a), a, 6, [], ["prod"]), 8))
  {
    hide Reachable, KeyOf;
    CryptRead(a);
    var key, cache := KeyOf(a), map[KeyOf(a) := a];
    var s7 := Scene(cache, multiset{}, Holding(key), Matching(key, a, 6, ["prod"], []), 7);
    assert (set h | h in ["prod"]) == {"prod"} && ["prod"][1..] == [];
    ProdMatches("prod", ["prod"]);
    assert WorkerAfter(Plain(), s7, MatchPattern(0, ["prod"])).matched == ["prod"];
    hide FilterMatches;
    Onward(s7, MatchPattern(0, ["prod"]),
           Scene(cache, multiset{}, Holding(key), Matching(key, a, 6, [], ["prod"]), 8));
  }

  lemma TaskPlanned(a: Crypt)
    requires AsksForDb(a) && a.namespaces == ["prod"]
    ensures Reachable(Plain(), Scene(map[KeyOf(a) := a], multiset{}, Holding(KeyOf(a)),
                                     Running(KeyOf(a), a, 6, [Task(Db(), "prod")]), 9))
  {
    hide Reachable, KeyOf;
    PatternMatched(a);
    var key, cache := KeyOf(a), map[KeyOf(a) := a];
    assert [Db()][1..] == [] && ["prod"][1..] == [];
    assert TasksFor(Db(), []) == [] && TasksFor(Db(), ["prod"]) == [Task(Db(), "prod")];
    assert Tasks([], ["prod"]) == [] && Tasks([Db()], ["prod"]) == [Task(Db(), "prod")];
    hide Tasks, TasksFor;
    Onward(Scene(cache, multiset{}, Holding(key), Matching(key, a, 6, [], ["prod"]), 8), Plan(0),
           Scene(cache, multiset{}, Holding(key), Running(key, a, 6, [Task(Db(), "prod")]), 9));
  }

  /**
   The store does not have the key: the worker goes on, and nobody comes back to the secret, not even when the store
   has the key in the end.
   */
  lemma FailedLookupIsForgotten() returns (s: State, key: string)
    ensures Reachable(Plain(), s) && WakeInvariant(Plain(), s) && Enabled(s, FetchData(0, false))
    ensures Missing(Plain(), s, key, DB) && Awaited(Plain(), s, key, DB)
    ensures var after := Apply(Plain(), s, FetchData(0, false));
            && Missing(Plain(), after, key, DB) && !Awaited(Plain(), after, key, DB)
            && var stocked := Apply(Plain(), after, StoreChanged(Stocked()));
               Missing(Plain(), stocked, key, DB) && !Awaited(Plain(), stocked, key, DB)
  {
    hide Apply, Awaited, WakeInvariant, Missing, Reachable;
    var a := Asks("home", "a", ["prod"]);
    key := KeyOf(a);
    var worker := Running(key, a, 6, [Task(Db(), "prod")]);
    s := Scene(map[key := a], multiset{}, Holding(key), worker, 9);
    TaskPlanned(a);
    assert Enabled(s, FetchData(0, false));
    BusyAlone(s, worker);
    LastTaskIsForgotten(s, worker);
    StoreWakesNobody(Apply(Plain(), s, FetchData(0, false)), key);
  }

  lemma StoreWakesNobody(s: State, key: string)
    ensures var after := Apply(Plain(), s, StoreChanged(Stocked()));
            && (Missing(Plain(), after, key, DB) <==> Missing(Plain(), s, key, DB))
            && (Awaited(Plain(), after, key, DB) <==> Awaited(Plain(), s, key, DB))
  {
    var after := Apply(Plain(), s, StoreChanged(Stocked()));
    assert after == s.(store := Stocked(), clock := s.clock + 1);
  }

  /** One of three workers is busy, with the secret as its last task and nothing else under way. */
  ghost predicate Alone(s: State, worker: Worker) {
    && worker.Running? && worker.todo == [Task(Db(), "prod")]
    && s.workers == [worker, Idle, Idle] && s.queue == Holding(worker.key) && s.events == multiset{}
    && ValidCache(s.crypts) && s.crypts.Keys == {worker.key} && OnlyDb(s)
    && s.crypts[worker.key].namespaces == ["prod"] && "prod" in s.namespaces && DB !in s.secrets
  }

  lemma BusyAlone(s: State, worker: Worker)
    requires Alone(s, worker)
    ensures WakeInvariant(Plain(), s) && Missing(Plain(), s, worker.key, DB) && Awaited(Plain(), s, worker.key, DB)
  {
    WantsDb(s, worker.key);
    assert worker.todo[0] in worker.todo && Owes(Plain(), s.workers[0], worker.key, DB);
    assert HeldKeys(s.workers) == {worker.key};
    forall k | k in s.crypts
      ensures Awaited(Plain(), s, k, DB)
    {
      assert Owes(Plain(), s.workers[0], k, DB);
    }
    IsFine(s);
  }

  lemma LastTaskIsForgotten(s: State, worker: Worker)
    requires Alone(s, worker) && s.store == map[]
    ensures var after := Apply(Plain(), s, FetchData(0, false));
            Missing(Plain(), after, worker.key, DB) && !Awaited(Plain(), after, worker.key, DB)
  {
    hide Apply, Awaited, WakeInvariant;
    BusyAlone(s, worker);
    FailureIsForgottenUnless(Plain(), s, FetchData(0, false), worker.key, DB);
  }

  // --- Definitions of one name ---------------------------------------------------------------------------

  /**
   Two definitions of one name over different entries: a settled secret gives way to the earlier one in every sync.
   */
  lemma EarlierDefinitionShowsThrough() returns (store: Contents, crypt: Crypt, api: Secrets)
    ensures Desired(Plain(), store, {"prod"}, crypt, DB).Some?
    ensures Find(api, DB) == Desired(Plain(), store, {"prod"}, crypt, DB)
    ensures !Coherent(Plain(), store, crypt, DB)
    ensures !HoldsThroughout(Plain(), store, crypt, Tasks(crypt.secrets, ["prod"]), api, DB, Find(api, DB))
  {
    var earlier, later := Db().(key := "old"), Db().(key := "new");
    store := map["old" := Some(map["field" := []]), "new" := None];
    crypt := Crypt("home", "a", "uid", [earlier, later], ["prod"]);
    var want := Rendered(store, crypt, Task(later, "prod"));
    api := map[DB := want];
    assert crypt.secrets[0] == earlier && crypt.secrets[1] == later && "prod" in crypt.namespaces;
    assert IsGood(Plain(), store, crypt, earlier, DB) && IsGood(Plain(), store, crypt, later, DB);
    assert Rendered(store, crypt, Task(earlier, "prod")).data != want.data by {
      assert "field" in GetData(store["old"]) && "field" !in GetData(store["new"]);
    }
    LastGoodIsLast(Plain(), store, crypt, crypt.secrets, DB);
    assert Selected(Plain(), crypt.namespaces, {"prod"}) == {"prod"};
    SettledDuringSync(Plain(), store, crypt, {"prod"}, ["prod"], api, DB);
  }
}
