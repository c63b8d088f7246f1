/**
 No lost wake-up. Along every run whose steps are `Clean`, a secret that some cached crypt wants in a cached
 namespace and the API does not have is always on somebody's list: its crypt's key is delayed, waiting or marked
 dirty, a worker has yet to write it, or an event that will enqueue the key is pending.
 */
module WakeUp {
  import opened Common
  import opened Resources
  import opened QueueKeys
  import opened WorkQueues
  import opened Reconcile
  import opened Handlers
  import opened Machine
  import opened Discipline

  ghost predicate Defines(crypt: Crypt, name: string) {
    exists d :: d in crypt.secrets && d.name == name
  }

  ghost predicate Targets(cfg: Config, crypt: Crypt, id: SecretId) {
    Defines(crypt, id.name) && MatchesSome(cfg, crypt.namespaces, id.namespace)
  }

  /** The crypt cached under the key targets the identity, and its namespace is cached. */
  ghost predicate Wants(cfg: Config, s: State, key: string, id: SecretId) {
    key in s.crypts && id.namespace in s.namespaces && Targets(cfg, s.crypts[key], id)
  }

  // --- The promises ------------------------------------------------------------------------------------

  /** A secret that disappears was controlled by every cached crypt that wants it. */
  ghost predicate DeletedFromController(cfg: Config, s: State, id: SecretId)
    requires id in s.secrets
  {
    forall k :: Wants(cfg, s, k, id) ==> ControlledBy(s.secrets[id], s.crypts[k].name)
  }

  /** At a deletion the API listing shows the namespace of the owner's crypt, and no other cached crypt has its name. */
  ghost predicate OwnerIsListed(s: State, secret: Secret, listed: seq<string>) {
    forall k :: k in s.crypts && ControlledBy(secret, s.crypts[k].name) ==>
      s.crypts[k].namespace in listed
      && forall other :: other in s.crypts && s.crypts[other].name == s.crypts[k].name ==> other == k
  }

  /** What a run promises, step by step; every step not mentioned is free. */
  ghost predicate Clean(cfg: Config, s: State, step: Step)
    requires Enabled(s, step)
  {
    match step
    case SecretDeleted(id) => DeletedFromController(cfg, s, id)
    case HandleNamespace(name, _, _) => EachConcernedIsFirst(cfg, s.namespaces, s.crypts, name)
    case HandleDelete(secret, listed) => OwnerIsListed(s, secret, listed)
    case FetchData(w, fault) => !fault && s.workers[w].todo[0].def.key in s.store
    case Create(_, fault) => !fault
    case Update(_, fault) => !fault
    case _ => true
  }

  // --- The wake-up invariant ---------------------------------------------------------------------------

  /** The worker holds the key and has yet to write this identity, unless it finds it written. */
  ghost predicate Owes(cfg: Config, worker: Worker, key: string, id: SecretId) {
    worker.Busy() && worker.key == key &&
    match worker
    case Taken(_) => true
    case Matching(_, crypt, _, patterns, matched) =>
      Defines(crypt, id.name) && (id.namespace in matched || MatchesSome(cfg, patterns, id.namespace))
    case Running(_, _, _, todo) => exists t :: t in todo && t.Id() == id
    case Fetched(_, _, _, todo, _, _) => exists t :: t in todo && t.Id() == id
    case Conflicted(_, _, _, todo, _, _) => todo != [] && exists t :: t in todo[1..] && t.Id() == id
    case Finished(_) => false
  }

  /** The event concerns the key of a crypt of the given name; handled under the promises, it enqueues the key. */
  ghost predicate Wakes(e: Event, key: string, name: string, id: SecretId) {
    match e
    case CryptEvent(crypt) => KeyOf(crypt) == key
    case NamespaceEvent(namespace) => namespace == id.namespace
    case DeleteEvent(secret) => ControlledBy(secret, name)
  }

  ghost predicate EventPending(s: State, key: string, id: SecretId) {
    key in s.crypts && exists e :: e in s.events && Wakes(e, key, s.crypts[key].name, id)
  }

  ghost predicate WorkerOwes(cfg: Config, s: State, key: string, id: SecretId) {
    exists i :: 0 <= i < |s.workers| && Owes(cfg, s.workers[i], key, id)
  }

  ghost predicate Awaited(cfg: Config, s: State, key: string, id: SecretId) {
    Noticed(s, key) || WorkerOwes(cfg, s, key, id) || EventPending(s, key, id)
  }

  ghost predicate Missing(cfg: Config, s: State, key: string, id: SecretId) {
    !s.queue.closed && Wants(cfg, s, key, id) && id !in s.secrets
  }

  ghost predicate NoLostWakeUp(cfg: Config, s: State) {
    forall key, id :: Missing(cfg, s, key, id) ==> Awaited(cfg, s, key, id)
  }

  ghost predicate WakeInvariant(cfg: Config, s: State) {
    ValidCache(s.crypts) && Disciplined(s) && NoLostWakeUp(cfg, s)
  }

  // --- One step ----------------------------------------------------------------------------------------

  lemma CacheStaysValid(s: State, step: Step)
    requires Enabled(s, step) && ValidCache(s.crypts)
    ensures ValidCache(CryptsAfter(s, step))
  {
  }

  lemma ClosedStaysClosed(cfg: Config, s: State, step: Step)
    requires Enabled(s, step) && s.queue.closed
    ensures QueueAfter(cfg, s, step).closed
  {
    if step.HandleNamespace? {
      EnqueueAllKeys(s.queue, CryptsForNamespace(cfg, step.homes, step.lists, step.name));
    }
  }

  /** A gap that was not there before, or whose crypt has just changed, comes with its event. */
  lemma NewGapRaisesEvent(cfg: Config, s: State, step: Step, key: string, id: SecretId)
    requires Enabled(s, step) && Clean(cfg, s, step) && !s.queue.closed
    requires Missing(cfg, Apply(cfg, s, step), key, id)
    requires !Missing(cfg, s, key, id) || Apply(cfg, s, step).crypts[key] != s.crypts[key]
    ensures EventPending(Apply(cfg, s, step), key, id)
  {
    var after := Apply(cfg, s, step);
    var name := after.crypts[key].name;
    if step.CryptCached? && KeyOf(step.crypt) == key {
      assert CryptEvent(step.crypt) in after.events && Wakes(CryptEvent(step.crypt), key, name, id);
    } else if id.namespace !in s.namespaces {
      assert NamespaceEvent(id.namespace) in after.events && Wakes(NamespaceEvent(id.namespace), key, name, id);
    } else {
      assert step == SecretDeleted(id) && Wants(cfg, s, key, id);
      assert DeleteEvent(s.secrets[id]) in after.events && Wakes(DeleteEvent(s.secrets[id]), key, name, id);
    }
  }

  /** When each concerned crypt is first in its home, a namespace addition enqueues every one of them. */
  lemma NamespaceEnqueues(cfg: Config, s: State, step: Step, key: string)
    requires step.HandleNamespace? && ShowsCaches(step.homes, step.lists, s.namespaces, s.crypts)
    requires ValidCache(s.crypts) && !s.queue.closed && EachConcernedIsFirst(cfg, s.namespaces, s.crypts, step.name)
    requires key in s.crypts && SelectsNamespace(cfg, s.crypts[key], step.name)
    ensures key in EnqueueAll(s.queue, CryptsForNamespace(cfg, step.homes, step.lists, step.name)).delayed
  {
    var crypt := s.crypts[key];
    NamespaceAddCoverage(cfg, step.homes, step.lists, s.namespaces, s.crypts, step.name);
    var enqueued := CryptsForNamespace(cfg, step.homes, step.lists, step.name);
    EnqueueAllKeys(s.queue, enqueued);
    assert crypt in ConcernedBy(cfg, s.namespaces, s.crypts, step.name);
    assert crypt in (set c | c in enqueued);
    assert KeyOf(crypt) in (set c | c in enqueued :: KeyOf(c));
  }

  /** When the owner's crypt is listed and alone of its name, the deletion of its secret enqueues it. */
  lemma DeletionFindsOwner(s: State, secret: Secret, listed: seq<string>, key: string)
    requires ValidCache(s.crypts) && OwnerIsListed(s, secret, listed)
    requires key in s.crypts && ControlledBy(secret, s.crypts[key].name)
    ensures OwnerOfDeleted(s.crypts, listed, secret) == Some(s.crypts[key])
  {
    ParentIsWoken(s.crypts, listed, secret, s.crypts[key]);
  }

  /** Only its own handler takes an event away. */
  lemma EventStays(s: State, step: Step, e: Event)
    requires Enabled(s, step) && e in s.events && e !in Consumed(step)
    ensures e in EventsAfter(s, step)
  {
    hide Enabled, Raised, Consumed;
  }

  lemma HandledListings(s: State, step: Step)
    requires Enabled(s, step) && step.HandleNamespace?
    ensures ShowsCaches(step.homes, step.lists, s.namespaces, s.crypts)
  {
  }

  /** A pending event stays pending, or is handled and has put the key on the queue. */
  lemma PendingOrEnqueued(cfg: Config, s: State, step: Step, e: Event, key: string, id: SecretId)
    requires Enabled(s, step) && Clean(cfg, s, step) && !s.queue.closed
    requires ValidCache(s.crypts) && key in s.crypts && MatchesSome(cfg, s.crypts[key].namespaces, id.namespace)
    requires e in s.events && Wakes(e, key, s.crypts[key].name, id)
    ensures e in EventsAfter(s, step) || key in QueueAfter(cfg, s, step).delayed
  {
    hide Enabled, EventsAfter, EachConcernedIsFirst, OwnerIsListed, EnqueueAll;
    if step.HandleNamespace? && e == NamespaceEvent(step.name) {
      HandledListings(s, step);
      NamespaceEnqueues(cfg, s, step, key);
    } else if step.HandleDelete? && e == DeleteEvent(step.secret) {
      DeletionFindsOwner(s, step.secret, step.listed, key);
    } else if step.HandleCrypt? && e == CryptEvent(step.crypt) {
    } else {
      EventStays(s, step, e);
    }
  }

  /** A worker that owes an identity still owes it after its own step, or has just written it. */
  lemma OwesUntilWritten(cfg: Config, s: State, step: Step, key: string, id: SecretId)
    requires Enabled(s, step) && IsWorkerStep(step) && Clean(cfg, s, step) && ValidCache(s.crypts)
    requires Wants(cfg, s, key, id) && id !in s.secrets
    requires Owes(cfg, s.workers[step.w], key, id)
    ensures Owes(cfg, WorkerAfter(cfg, s, step), key, id) || id in SecretsAfter(s, step)
  {
    hide Enabled, Clean, Owes, SecretsAfter, WorkerAfter, Wants, ValidCache;
    match step
    case ReadCrypt(_) => OwesAcrossReading(cfg, s, step, key, id);
    case MatchPattern(_, _) => OwesAcrossMatching(cfg, s, step, key, id);
    case Plan(_) => OwesAcrossPlanning(cfg, s, step, key, id);
    case FetchData(_, _) => OwesAcrossFetch(cfg, s, step, key, id);
    case Create(_, _) => OwesAcrossCreate(cfg, s, step, key, id);
    case Update(_, _) => OwesAcrossUpdate(cfg, s, step, key, id);
    case _ => OwingWorkerIsBusy(cfg, s, step, key, id);
  }

  lemma OwingWorkerIsBusy(cfg: Config, s: State, step: Step, key: string, id: SecretId)
    requires Enabled(s, step) && (step.TakeKey? || step.Exit? || step.Release?)
    ensures !Owes(cfg, s.workers[step.w], key, id)
  {
  }

  lemma OwesAcrossReading(cfg: Config, s: State, step: Step, key: string, id: SecretId)
    requires Enabled(s, step) && step.ReadCrypt? && ValidCache(s.crypts) && Wants(cfg, s, key, id)
    requires Owes(cfg, s.workers[step.w], key, id)
    ensures Owes(cfg, WorkerAfter(cfg, s, step), key, id)
  {
    LookupIsCached(s.crypts, key);
  }

  lemma OwesAcrossMatching(cfg: Config, s: State, step: Step, key: string, id: SecretId)
    requires Enabled(s, step) && step.MatchPattern? && Wants(cfg, s, key, id)
    requires Owes(cfg, s.workers[step.w], key, id)
    ensures Owes(cfg, WorkerAfter(cfg, s, step), key, id)
  {
    OwesAcrossPattern(cfg, s.workers[step.w], step.listing, s.namespaces, id);
  }

  lemma OwesAcrossPlanning(cfg: Config, s: State, step: Step, key: string, id: SecretId)
    requires Enabled(s, step) && step.Plan?
    requires Owes(cfg, s.workers[step.w], key, id)
    ensures Owes(cfg, WorkerAfter(cfg, s, step), key, id)
  {
    OwesAcrossPlan(cfg, s.workers[step.w], id);
  }

  lemma OwesAcrossFetch(cfg: Config, s: State, step: Step, key: string, id: SecretId)
    requires Enabled(s, step) && step.FetchData? && Clean(cfg, s, step)
    requires Owes(cfg, s.workers[step.w], key, id)
    ensures Owes(cfg, WorkerAfter(cfg, s, step), key, id)
  {
  }

  /** Create writes the first task's identity, or finds it there, which the missing identity is not. */
  lemma OwesAcrossCreate(cfg: Config, s: State, step: Step, key: string, id: SecretId)
    requires Enabled(s, step) && step.Create? && Clean(cfg, s, step) && id !in s.secrets
    requires Owes(cfg, s.workers[step.w], key, id)
    ensures Owes(cfg, WorkerAfter(cfg, s, step), key, id) || id in SecretsAfter(s, step)
  {
    var worker := s.workers[step.w];
    var t :| t in worker.todo && t.Id() == id;
    assert t == worker.todo[0] || t in worker.todo[1..];
  }

  lemma OwesAcrossUpdate(cfg: Config, s: State, step: Step, key: string, id: SecretId)
    requires Enabled(s, step) && step.Update?
    requires Owes(cfg, s.workers[step.w], key, id)
    ensures Owes(cfg, WorkerAfter(cfg, s, step), key, id)
  {
  }

  lemma OwesAcrossPattern(cfg: Config, worker: Worker, listing: seq<string>, namespaces: set<string>, id: SecretId)
    requires worker.Matching? && worker.patterns != [] && IsListing(listing, namespaces) && id.namespace in namespaces
    requires id.namespace in worker.matched || MatchesSome(cfg, worker.patterns, id.namespace)
    ensures id.namespace in worker.matched + FilterMatches(cfg, worker.patterns[0], listing)
            || MatchesSome(cfg, worker.patterns[1..], id.namespace)
  {
    FilterMatchesMembers(cfg, worker.patterns[0], listing, id.namespace);
    InListing(listing, namespaces, id.namespace);
    if id.namespace !in worker.matched {
      var p :| p in worker.patterns && cfg.matches(p, id.namespace);
      assert p == worker.patterns[0] || p in worker.patterns[1..];
    }
  }

  lemma OwesAcrossPlan(cfg: Config, worker: Worker, id: SecretId)
    requires worker.Matching? && worker.patterns == []
    requires Defines(worker.crypt, id.name)
    requires id.namespace in worker.matched || MatchesSome(cfg, worker.patterns, id.namespace)
    ensures exists t :: t in Tasks(worker.crypt.secrets, worker.matched) && t.Id() == id
  {
    var d :| d in worker.crypt.secrets && d.name == id.name;
    TasksMembers(worker.crypt.secrets, worker.matched, Task(d, id.namespace));
    assert Task(d, id.namespace).Id() == id;
  }

  /** One gap that stays open stays on somebody's list. */
  lemma StillAwaited(cfg: Config, s: State, step: Step, key: string, id: SecretId)
    requires Enabled(s, step) && Clean(cfg, s, step) && ValidCache(s.crypts) && Disciplined(s)
    requires Missing(cfg, s, key, id) && Awaited(cfg, s, key, id)
    requires id !in SecretsAfter(s, step)
    requires key in CryptsAfter(s, step) && CryptsAfter(s, step)[key] == s.crypts[key]
    ensures Awaited(cfg, Apply(cfg, s, step), key, id)
  {
    hide Clean;
    var after := Apply(cfg, s, step);
    if Noticed(s, key) {
      if Takes(s, step, key) {
        assert Owes(cfg, after.workers[step.w], key, id);
      } else {
        NoticePersists(cfg, s, step, key);
      }
    } else if WorkerOwes(cfg, s, key, id) {
      var i :| 0 <= i < |s.workers| && Owes(cfg, s.workers[i], key, id);
      if IsWorkerStep(step) && step.w == i {
        OwesUntilWritten(cfg, s, step, key, id);
      }
      assert Owes(cfg, after.workers[i], key, id);
    } else {
      var e :| e in s.events && Wakes(e, key, s.crypts[key].name, id);
      PendingOrEnqueued(cfg, s, step, e, key, id);
      assert e in after.events ==> Wakes(e, key, after.crypts[key].name, id);
    }
  }

  ghost predicate CleanNext(cfg: Config, s: State, step: Step, after: State) {
    Next(cfg, s, step, after) && Clean(cfg, s, step)
  }

  lemma WakeUpStep(cfg: Config, s: State, step: Step, after: State)
    requires WakeInvariant(cfg, s) && CleanNext(cfg, s, step, after)
    ensures WakeInvariant(cfg, after)
  {
    hide Enabled, Clean;
    CacheStaysValid(s, step);
    DisciplineStep(cfg, s, step);
    forall key, id | Missing(cfg, after, key, id)
      ensures Awaited(cfg, after, key, id)
    {
      if s.queue.closed {
        ClosedStaysClosed(cfg, s, step);
      }
      if Missing(cfg, s, key, id) && after.crypts[key] == s.crypts[key] {
        StillAwaited(cfg, s, step, key, id);
      } else {
        NewGapRaisesEvent(cfg, s, step, key, id);
      }
    }
  }

  // --- Over whole runs ---------------------------------------------------------------------------------

  ghost predicate IsCleanRun(cfg: Config, states: seq<State>, steps: seq<Step>) {
    && IsRun(cfg, states, steps)
    && forall i :: 0 <= i < |steps| ==> CleanNext(cfg, states[i], steps[i], states[i + 1])
  }

  lemma InitialWakeInvariant(cfg: Config, s: State)
    requires Init(s)
    ensures WakeInvariant(cfg, s)
  {
  }

  /** No wake-up is lost in any state of any clean run, whatever secrets and store it starts from. */
  lemma {:induction false} NoWakeUpIsEverLost(cfg: Config, states: seq<State>, steps: seq<Step>, i: nat)
    requires IsCleanRun(cfg, states, steps) && i < |states| && Init(states[0])
    ensures WakeInvariant(cfg, states[i])
  {
    hide Apply, Enabled, Clean, WakeInvariant;
    if i == 0 {
      InitialWakeInvariant(cfg, states[0]);
    } else {
      NoWakeUpIsEverLost(cfg, states, steps, i - 1);
      assert CleanNext(cfg, states[i - 1], steps[i - 1], states[i - 1 + 1]);
      WakeUpStep(cfg, states[i - 1], steps[i - 1], states[i]);
    }
  }

  ghost predicate AllIdle(s: State) {
    forall i :: 0 <= i < |s.workers| ==> !s.workers[i].Busy()
  }

  /** Nothing is under way: no event, no delayed or waiting key, no busy worker. */
  ghost predicate Drained(s: State) {
    && !s.queue.closed && s.events == multiset{} && s.queue.delayed == {} && s.queue.waiting == []
    && AllIdle(s)
  }

  lemma NothingNoticed(s: State, key: string)
    requires Disciplined(s) && Drained(s)
    ensures !Noticed(s, key)
  {
    assert HeldKeys(s.workers) == {};
    assert (set k | k in s.queue.waiting) == {};
    assert s.queue.dirty == s.queue.dirty - s.queue.processing;
  }

  /** When nothing is under way, every wanted secret exists. */
  lemma DrainedIsComplete(cfg: Config, s: State, key: string, id: SecretId)
    requires WakeInvariant(cfg, s) && Drained(s) && Wants(cfg, s, key, id)
    ensures id in s.secrets
  {
    NothingNoticed(s, key);
    assert !Awaited(cfg, s, key, id);
    assert !Missing(cfg, s, key, id);
  }

  /** In every state from `i` to before `j` the crypt is cached, targets the identity, and the queue is open. */
  ghost predicate KeepsTargeting(cfg: Config, states: seq<State>, key: string, id: SecretId, i: nat, j: nat)
    requires i <= j <= |states|
  {
    forall m :: i <= m < j ==>
      !states[m].queue.closed && key in states[m].crypts && Targets(cfg, states[m].crypts[key], id)
  }

  lemma AlertStep(cfg: Config, s: State, step: Step, after: State, e: Event, key: string, id: SecretId)
    requires CleanNext(cfg, s, step, after) && WakeInvariant(cfg, s) && !s.queue.closed
    requires key in s.crypts && Targets(cfg, s.crypts[key], id) && Wakes(e, key, s.crypts[key].name, id)
    requires e in s.events || Noticed(s, key)
    ensures e in after.events || Noticed(after, key) || Takes(s, step, key)
  {
    hide Enabled, Clean, NoLostWakeUp;
    if Noticed(s, key) {
      NoticeStep(cfg, s, step, after, key);
    } else {
      PendingOrEnqueued(cfg, s, step, e, key, id);
    }
  }

  /** An event that concerns a crypt is pending, or its key is on the queue, until a worker takes the key. */
  lemma {:induction false} EventLeadsToTake(cfg: Config, states: seq<State>, steps: seq<Step>,
                                            e: Event, key: string, id: SecretId, i: nat, j: nat)
    requires IsCleanRun(cfg, states, steps) && i <= j < |states|
    requires forall m :: i <= m <= j ==> WakeInvariant(cfg, states[m])
    requires KeepsTargeting(cfg, states, key, id, i, j)
    requires key in states[i].crypts && e in states[i].events && Wakes(e, key, states[i].crypts[key].name, id)
    ensures e in states[j].events || Noticed(states[j], key) || TakenBetween(states, steps, key, i, j)
  {
    hide CleanNext, Next, Wakes, Noticed, Takes, TakenBetween, WakeInvariant, Targets;
    if i < j {
      EventLeadsToTake(cfg, states, steps, e, key, id, i, j - 1);
      TakenGrows(states, steps, key, i, j);
      assert CleanNext(cfg, states[j - 1], steps[j - 1], states[j - 1 + 1]);
      NameStays(cfg, states[i], states[j - 1], key);
      if e in states[j - 1].events || Noticed(states[j - 1], key) {
        AlertStep(cfg, states[j - 1], steps[j - 1], states[j], e, key, id);
      }
    }
  }

  lemma NameStays(cfg: Config, s: State, t: State, key: string)
    requires WakeInvariant(cfg, s) && WakeInvariant(cfg, t) && key in s.crypts && key in t.crypts
    ensures s.crypts[key].name == t.crypts[key].name
  {
    SameKeySameName(s.crypts[key], t.crypts[key]);
  }

  lemma SameKeySameName(c: Crypt, d: Crypt)
    requires WellNamed(c) && WellNamed(d) && KeyOf(c) == KeyOf(d)
    ensures c.name == d.name
  {
    KeysAreUnique(c.namespace, c.name, d.namespace, d.name);
  }

  /**
   The delete race is repaired. Whatever a worker was doing with the secret when it was deleted, the owner's key is
   taken again after the deletion before the system comes to rest, and at rest the secret exists again.
   */
  lemma DeletionIsRepaired(cfg: Config, states: seq<State>, steps: seq<Step>, key: string, id: SecretId, i: nat, j: nat)
    requires IsCleanRun(cfg, states, steps) && i < j < |states| && Init(states[0])
    requires steps[i] == SecretDeleted(id) && id.namespace in states[i].namespaces
    requires KeepsTargeting(cfg, states, key, id, i, j + 1)
    requires Drained(states[j])
    ensures TakenBetween(states, steps, key, i + 1, j)
    ensures id.namespace in states[j].namespaces ==> id in states[j].secrets
  {
    hide Apply, Enabled, Clean;
    forall m | i <= m <= j
      ensures WakeInvariant(cfg, states[m])
    {
      NoWakeUpIsEverLost(cfg, states, steps, m);
    }
    assert CleanNext(cfg, states[i], steps[i], states[i + 1]);
    var e := DeletionRaises(cfg, states[i], id, states[i + 1], key);
    EventLeadsToTake(cfg, states, steps, e, key, id, i + 1, j);
    NothingNoticed(states[j], key);
    if id.namespace in states[j].namespaces {
      DrainedIsComplete(cfg, states[j], key, id);
    }
  }

  lemma DeletionRaises(cfg: Config, s: State, id: SecretId, after: State, key: string) returns (e: Event)
    requires CleanNext(cfg, s, SecretDeleted(id), after) && Wants(cfg, s, key, id)
    ensures key in after.crypts && e in after.events && Wakes(e, key, after.crypts[key].name, id)
  {
    e := DeleteEvent(s.secrets[id]);
  }

  /** A crypt event is pending, or the crypt's key is on the queue, until a worker takes the key. */
  lemma {:induction false} CryptEventLeadsToTake(cfg: Config, states: seq<State>, steps: seq<Step>, crypt: Crypt,
                                                 i: nat, j: nat)
    requires IsRun(cfg, states, steps) && Disciplined(states[0]) && i <= j < |states|
    requires CryptEvent(crypt) in states[i].events
    requires forall m :: i <= m < j ==> !states[m].queue.closed
    ensures CryptEvent(crypt) in states[j].events || Noticed(states[j], KeyOf(crypt))
            || TakenBetween(states, steps, KeyOf(crypt), i, j)
  {
    hide Next, Noticed, Takes, TakenBetween, Disciplined, KeyOf;
    if i < j {
      CryptEventLeadsToTake(cfg, states, steps, crypt, i, j - 1);
      TakenGrows(states, steps, KeyOf(crypt), i, j);
      DisciplineRun(cfg, states, steps, j - 1);
      assert Next(cfg, states[j - 1], steps[j - 1], states[j - 1 + 1]);
      if CryptEvent(crypt) in states[j - 1].events || Noticed(states[j - 1], KeyOf(crypt)) {
        ResyncStep(cfg, states[j - 1], steps[j - 1], states[j], crypt);
      }
    }
  }

  /** A crypt that was passed over is enqueued by its next resync: pending, on the queue, or taken by a worker. */
  lemma ResyncLeadsToTake(cfg: Config, states: seq<State>, steps: seq<Step>, key: string, i: nat, j: nat)
    requires IsRun(cfg, states, steps) && Disciplined(states[0]) && i < j < |states|
    requires steps[i] == Resync(key) && key in states[i].crypts && KeyOf(states[i].crypts[key]) == key
    requires forall m :: i <= m < j ==> !states[m].queue.closed
    ensures CryptEvent(states[i].crypts[key]) in states[j].events || Noticed(states[j], key)
            || TakenBetween(states, steps, key, i + 1, j)
  {
    hide Next, Noticed, TakenBetween, Disciplined, KeyOf;
    assert Next(cfg, states[i], steps[i], states[i + 1]);
    ResyncRaises(cfg, states[i], key, states[i + 1]);
    CryptEventLeadsToTake(cfg, states, steps, states[i].crypts[key], i + 1, j);
  }

  lemma ResyncRaises(cfg: Config, s: State, key: string, after: State)
    requires Next(cfg, s, Resync(key), after) && key in s.crypts
    ensures CryptEvent(s.crypts[key]) in after.events
  {
  }

  /** A pending crypt event stays, or its handler enqueues the key; an enqueued key stays until taken. */
  lemma ResyncStep(cfg: Config, s: State, step: Step, after: State, crypt: Crypt)
    requires Next(cfg, s, step, after) && Disciplined(s) && !s.queue.closed
    requires CryptEvent(crypt) in s.events || Noticed(s, KeyOf(crypt))
    ensures CryptEvent(crypt) in after.events || Noticed(after, KeyOf(crypt)) || Takes(s, step, KeyOf(crypt))
  {
    if Noticed(s, KeyOf(crypt)) {
      NoticeStep(cfg, s, step, after, KeyOf(crypt));
    } else if step != HandleCrypt(crypt) {
      EventStays(s, step, CryptEvent(crypt));
    }
  }

  // --- Where the promises are needed -------------------------------------------------------------------

  /** The state after a deletion whose event has been handled. */
  ghost function AfterDeletion(cfg: Config, s: State, id: SecretId, listed: seq<string>): State
    requires id in s.secrets
  {
    Apply(cfg, Apply(cfg, s, SecretDeleted(id)), HandleDelete(s.secrets[id], listed))
  }

  lemma DeletionFrame(cfg: Config, s: State, id: SecretId)
    requires id in s.secrets
    ensures Apply(cfg, s, SecretDeleted(id))
         == s.(secrets := s.secrets - {id},
               events := s.events + multiset{DeleteEvent(s.secrets[id])}, clock := s.clock + 1)
  {
  }

  lemma HandlingFrame(cfg: Config, s: State, secret: Secret, listed: seq<string>)
    requires DeleteEvent(secret) in s.events
    ensures var owner := OwnerOfDeleted(s.crypts, listed, secret);
            var queue := if owner.Some? then AddRateLimited(s.queue, KeyOf(owner.value)) else s.queue;
            Apply(cfg, s, HandleDelete(secret, listed))
            == s.(queue := queue, events := s.events - multiset{DeleteEvent(secret)}, clock := s.clock + 1)
  {
  }

  /** Deleting and handling come to this: the secret is gone, and the owner found by the scan is enqueued. */
  lemma AfterDeletionFrame(cfg: Config, s: State, id: SecretId, listed: seq<string>)
    requires id in s.secrets
    ensures var after, owner := AfterDeletion(cfg, s, id, listed), OwnerOfDeleted(s.crypts, listed, s.secrets[id]);
            && after.crypts == s.crypts && after.namespaces == s.namespaces && after.secrets == s.secrets - {id}
            && after.events == s.events && after.workers == s.workers
            && after.queue == if owner.Some? then AddRateLimited(s.queue, KeyOf(owner.value)) else s.queue
  {
    hide Apply, OwnerOfDeleted;
    DeletionFrame(cfg, s, id);
    HandlingFrame(cfg, Apply(cfg, s, SecretDeleted(id)), s.secrets[id], listed);
  }

  /**
   A deletion opens a gap. Once its event is handled somebody knows of the gap exactly when somebody did before, or the
   crypt controls the deleted secret by name and is the first of its name to be listed. A crypt that shares the target
   with the controller is not told, and neither is a second crypt of the controller's name.
   */
  lemma HandledDeletionIsNoticedIff(cfg: Config, s: State, key: string, id: SecretId, listed: seq<string>)
    requires ValidCache(s.crypts) && !s.queue.closed && id in s.secrets && Wants(cfg, s, key, id)
    ensures var after, crypt := AfterDeletion(cfg, s, id, listed), s.crypts[key];
            && Missing(cfg, after, key, id)
            && (Awaited(cfg, after, key, id)
                <==> Awaited(cfg, s, key, id)
                     || (ControlledBy(s.secrets[id], crypt.name) && ListedFirst(s.crypts, listed, crypt)))
  {
    hide AfterDeletion, ControlledBy, ListedFirst, OwnerOfDeleted;
    AfterDeletionFrame(cfg, s, id, listed);
    DeletedSecretWakes(s.crypts, listed, s.secrets[id], s.crypts[key]);
    OwnerIsCached(s.crypts, listed, s.secrets[id]);
  }

  lemma OwnerIsCached(cache: map<string, Crypt>, listed: seq<string>, secret: Secret)
    requires ValidCache(cache)
    ensures var owner := OwnerOfDeleted(cache, listed, secret);
            owner.Some? ==> KeyOf(owner.value) in cache && cache[KeyOf(owner.value)] == owner.value
  {
    var ref := ControllerOf(secret.owners);
    if ref.Some? {
      OwnerScanIsFirst(cache, listed, ref.value.name);
    }
  }

  /** The call comes to nothing: broken, refused, no such key in the store, or no such secret to update. */
  ghost predicate Fails(s: State, step: Step)
    requires Enabled(s, step)
  {
    match step
    case FetchData(w, fault) => fault || s.workers[w].todo[0].def.key !in s.store
    case Create(_, fault) => fault
    case Update(w, fault) => fault || s.workers[w].todo[0].Id() !in s.secrets
    case _ => false
  }

  /**
   A failed call is only logged. The gap it leaves is still on somebody's list exactly when its key or an event for
   it was already pending, or the worker meets the same identity again later in its list.
   */
  lemma FailureIsForgottenUnless(cfg: Config, s: State, step: Step, key: string, id: SecretId)
    requires Enabled(s, step) && Disciplined(s) && Fails(s, step)
    requires s.workers[step.w].key == key && s.workers[step.w].todo[0].Id() == id
    requires Missing(cfg, s, key, id)
    ensures Missing(cfg, Apply(cfg, s, step), key, id)
    ensures Awaited(cfg, Apply(cfg, s, step), key, id)
            <==> Noticed(s, key) || EventPending(s, key, id)
                 || exists t :: t in s.workers[step.w].todo[1..] && t.Id() == id
  {
    var after := Apply(cfg, s, step);
    FailureChangesNothingElse(cfg, s, step);
    hide Apply, Enabled, WellFormed, Fails;
    forall i | 0 <= i < |s.workers| && i != step.w && s.workers[i].Busy()
      ensures s.workers[i].key != key
    {
      assert s.workers[step.w].Busy();
    }
    assert WorkerOwes(cfg, after, key, id) <==> Owes(cfg, after.workers[step.w], key, id);
  }

  /** A failing call moves its worker to the next task and leaves the rest of the system as it is. */
  lemma FailureChangesNothingElse(cfg: Config, s: State, step: Step)
    requires Enabled(s, step) && Fails(s, step)
    ensures step.FetchData? || step.Create? || step.Update?
    ensures (s.workers[step.w].Running? || s.workers[step.w].Writing()) && s.workers[step.w].todo != []
    ensures Apply(cfg, s, step)
         == s.(workers := s.workers[step.w := NextTask(s.workers[step.w])], clock := s.clock + 1)
  {
  }
}
