/**
 The whole system as a step machine: the environment, the event handlers and any number of workers
 interleave freely, and a worker's store lookup, Create and Update are separate steps.

 `Enabled` says when a step can happen, `Apply` what it does; everything the environment or the scheduler
 decides is an argument of the step. The clock counts steps and the log records who wrote what, from what;
 neither influences any other part of the state.
 */
module Machine {
  import opened Common
  import opened Resources
  import opened QueueKeys
  import opened Stores
  import opened WorkQueues
  import opened Reconcile
  import opened Handlers

  datatype Event =
    | CryptEvent(crypt: Crypt)       // added, updated or resynced
    | NamespaceEvent(name: string)   // added
    | DeleteEvent(secret: Secret)    // a secret is gone; its last known state

  /** Where a worker stands between taking a key and releasing it. */
  datatype Worker =
    | Idle
    | Taken(key: string)
    | Matching(key: string, crypt: Crypt, cryptAt: nat, patterns: seq<string>, matched: seq<string>)
    | Running(key: string, crypt: Crypt, cryptAt: nat, todo: seq<Task>)
    | Fetched(key: string, crypt: Crypt, cryptAt: nat, todo: seq<Task>, secret: Secret, dataAt: nat)
    | Conflicted(key: string, crypt: Crypt, cryptAt: nat, todo: seq<Task>, secret: Secret, dataAt: nat)
    | Finished(key: string)
    | Exited
  {
    predicate Busy() {
      !Idle? && !Exited?
    }

    /** The worker has a secret in hand for the first task of its list. */
    predicate Writing() {
      Fetched? || Conflicted?
    }
  }

  /** One write to the API: by the controller, with where its parts came from, or by someone else. */
  datatype Write =
    | Synced(key: string, crypt: Crypt, cryptAt: nat, task: Task, dataAt: nat, secret: Secret, at: nat)
    | Foreign(secret: Secret, at: nat)

  datatype State = State(
    crypts: map<string, Crypt>,      // the crypt informer's cache
    namespaces: set<string>,         // the namespace informer's cache
    store: Contents,
    secrets: Secrets,                // the API server's secrets
    queue: Queue<string>,
    events: multiset<Event>,         // delivered to the informers, not yet to the handlers
    workers: seq<Worker>,
    clock: nat,
    log: seq<Write>)

  datatype Step =
    // the environment
    | CryptCached(crypt: Crypt)
    | CryptRemoved(key: string)
    | Resync(key: string)
    | NamespaceCached(name: string)
    | NamespaceRemoved(name: string)
    | StoreChanged(store: Contents)
    | SecretDeleted(id: SecretId)
    | SecretWritten(secret: Secret)
    | CloseQueue
    // the event handlers and the queue's delay
    | HandleCrypt(crypt: Crypt)
    | HandleNamespace(name: string, homes: seq<string>, lists: map<string, seq<Crypt>>)
    | HandleDelete(secret: Secret, listed: seq<string>)
    | DelayOver(key: string)
    // the workers; `w` is the worker, `fault` a failing call
    | TakeKey(w: nat)
    | Exit(w: nat)
    | ReadCrypt(w: nat)
    | MatchPattern(w: nat, listing: seq<string>)
    | Plan(w: nat)
    | FetchData(w: nat, fault: bool)
    | Create(w: nat, fault: bool)
    | Update(w: nat, fault: bool)
    | Release(w: nat)

  predicate IsWorkerStep(step: Step) {
    step.TakeKey? || step.Exit? || step.ReadCrypt? || step.MatchPattern? || step.Plan? || step.FetchData?
    || step.Create? || step.Update? || step.Release?
  }

  /** Three workers in `main`, but nothing depends on how many. */
  ghost predicate Init(s: State) {
    && s.crypts == map[] && s.namespaces == {}
    && s.queue == Empty() && s.events == multiset{}
    && (forall i :: 0 <= i < |s.workers| ==> s.workers[i] == Idle)
    && s.clock == 0 && s.log == []
  }

  ghost predicate WorkerEnabled(s: State, step: Step)
    requires IsWorkerStep(step)
  {
    && step.w < |s.workers|
    && var worker := s.workers[step.w];
       match step
       case TakeKey(_) => worker.Idle? && s.queue.waiting != []
       case Exit(_) => worker.Idle? && s.queue.waiting == [] && s.queue.closed
       case ReadCrypt(_) => worker.Taken?
       case MatchPattern(_, listing) => worker.Matching? && worker.patterns != [] && IsListing(listing, s.namespaces)
       case Plan(_) => worker.Matching? && worker.patterns == []
       case FetchData(_, _) => worker.Running? && worker.todo != []
       case Create(_, _) => worker.Fetched? && worker.todo != []
       case Update(_, _) => worker.Conflicted? && worker.todo != []
       case Release(_) => worker.Finished? || (worker.Running? && worker.todo == [])
  }

  ghost predicate Enabled(s: State, step: Step) {
    if IsWorkerStep(step) then
      WorkerEnabled(s, step)
    else
      match step
      case CryptCached(crypt) => WellNamed(crypt)
      case CryptRemoved(key) => key in s.crypts
      case Resync(key) => key in s.crypts
      case NamespaceCached(name) => name !in s.namespaces
      case NamespaceRemoved(name) => name in s.namespaces
      case SecretDeleted(id) => id in s.secrets
      case HandleCrypt(crypt) => CryptEvent(crypt) in s.events
      case HandleNamespace(name, homes, lists) =>
        NamespaceEvent(name) in s.events && ShowsCaches(homes, lists, s.namespaces, s.crypts)
      case HandleDelete(secret, listed) => DeleteEvent(secret) in s.events
      case DelayOver(key) => key in s.queue.delayed
      case _ => true
  }

  // --- What a step does, one component of the state at a time -------------------------------------------

  ghost function CryptsAfter(s: State, step: Step): map<string, Crypt> {
    match step
    case CryptCached(crypt) => s.crypts[KeyOf(crypt) := crypt]
    case CryptRemoved(key) => s.crypts - {key}
    case _ => s.crypts
  }

  ghost function NamespacesAfter(s: State, step: Step): set<string> {
    match step
    case NamespaceCached(name) => s.namespaces + {name}
    case NamespaceRemoved(name) => s.namespaces - {name}
    case _ => s.namespaces
  }

  ghost function StoreAfter(s: State, step: Step): Contents {
    if step.StoreChanged? then step.store else s.store
  }

  /** Every change of a cache or of a secret's existence that a handler listens to raises an event. */
  ghost function Raised(s: State, step: Step): multiset<Event>
    requires Enabled(s, step)
  {
    match step
    case CryptCached(crypt) => multiset{CryptEvent(crypt)}
    case Resync(key) => multiset{CryptEvent(s.crypts[key])}
    case NamespaceCached(name) => multiset{NamespaceEvent(name)}
    case SecretDeleted(id) => multiset{DeleteEvent(s.secrets[id])}
    case _ => multiset{}
  }

  /** The one event a handler step takes. */
  ghost function Consumed(step: Step): multiset<Event> {
    match step
    case HandleCrypt(crypt) => multiset{CryptEvent(crypt)}
    case HandleNamespace(name, _, _) => multiset{NamespaceEvent(name)}
    case HandleDelete(secret, _) => multiset{DeleteEvent(secret)}
    case _ => multiset{}
  }

  ghost function EventsAfter(s: State, step: Step): multiset<Event>
    requires Enabled(s, step)
  {
    s.events + Raised(s, step) - Consumed(step)
  }

  ghost function QueueAfter(cfg: Config, s: State, step: Step): Queue<string>
    requires Enabled(s, step)
  {
    match step
    case CloseQueue => ShutDown(s.queue)
    case HandleCrypt(crypt) => AddRateLimited(s.queue, KeyOf(crypt))
    case HandleNamespace(name, homes, lists) => EnqueueAll(s.queue, CryptsForNamespace(cfg, homes, lists, name))
    case HandleDelete(secret, listed) =>
      var owner := OwnerOfDeleted(s.crypts, listed, secret);
      if owner.Some? then AddRateLimited(s.queue, KeyOf(owner.value)) else s.queue
    case DelayOver(key) => Fire(s.queue, key)
    case TakeKey(_) => Take(s.queue)
    case Release(w) => Done(s.queue, s.workers[w].key)
    case _ => s.queue
  }

  /** The step puts the worker's secret into the API: a new one by Create, an existing one by Update. */
  ghost predicate Writes(s: State, step: Step)
    requires Enabled(s, step)
  {
    match step
    case Create(w, fault) => !fault && s.workers[w].todo[0].Id() !in s.secrets
    case Update(w, fault) => !fault && s.workers[w].todo[0].Id() in s.secrets
    case _ => false
  }

  ghost function SecretsAfter(s: State, step: Step): Secrets
    requires Enabled(s, step)
  {
    if Writes(s, step) then
      s.secrets[s.workers[step.w].todo[0].Id() := s.workers[step.w].secret]
    else
      match step
      case SecretDeleted(id) => s.secrets - {id}
      case SecretWritten(secret) => s.secrets[secret.Id() := secret]
      case _ => s.secrets
  }

  /** The API's part in a sync: Create makes what is absent, Update replaces what is there, and nothing else changes. */
  lemma CallsChangeOneSecret(s: State, step: Step, id: SecretId)
    requires Enabled(s, step) && IsWorkerStep(step)
    ensures Find(SecretsAfter(s, step), id)
         == if step.Create? && !step.fault && s.workers[step.w].todo[0].Id() == id && id !in s.secrets then
              Some(s.workers[step.w].secret)
            else if step.Update? && !step.fault && s.workers[step.w].todo[0].Id() == id && id in s.secrets then
              Some(s.workers[step.w].secret)
            else
              Find(s.secrets, id)
  {
  }

  /** The environment's part: each of its steps changes the one thing it names, as it says, and leaves the rest. */
  lemma EnvironmentChangesOneThing(s: State, step: Step, key: string, id: SecretId)
    requires Enabled(s, step)
    ensures Find(CryptsAfter(s, step), key)
         == if step.CryptCached? && KeyOf(step.crypt) == key then Some(step.crypt)
            else if step == CryptRemoved(key) then None
            else Find(s.crypts, key)
    ensures key in NamespacesAfter(s, step)
            <==> step == NamespaceCached(key) || (key in s.namespaces && step != NamespaceRemoved(key))
    ensures StoreAfter(s, step) == if step.StoreChanged? then step.store else s.store
    ensures !IsWorkerStep(step) ==>
              Find(SecretsAfter(s, step), id)
              == if step.SecretWritten? && step.secret.Id() == id then Some(step.secret)
                 else if step == SecretDeleted(id) then None
                 else Find(s.secrets, id)
  {
  }

  ghost function LogAfter(s: State, step: Step): seq<Write>
    requires Enabled(s, step)
  {
    if Writes(s, step) then
      var worker := s.workers[step.w];
      s.log + [Synced(worker.key, worker.crypt, worker.cryptAt, worker.todo[0], worker.dataAt, worker.secret, s.clock)]
    else if step.SecretWritten? then
      s.log + [Foreign(step.secret, s.clock)]
    else
      s.log
  }

  /** The worker gives up on, or is through with, the first task of its list. */
  function NextTask(worker: Worker): Worker
    requires (worker.Running? || worker.Writing()) && worker.todo != []
  {
    Running(worker.key, worker.crypt, worker.cryptAt, worker.todo[1..])
  }

  /** A failed lookup, Create or Update is only logged: the worker goes on to its next task. */
  ghost function WorkerAfter(cfg: Config, s: State, step: Step): Worker
    requires IsWorkerStep(step) && WorkerEnabled(s, step)
  {
    var worker := s.workers[step.w];
    match step
    case TakeKey(_) => Taken(s.queue.waiting[0])
    case Exit(_) => Exited
    case ReadCrypt(_) =>
      var found := Lookup(s.crypts, worker.key);
      if found.None? then Finished(worker.key)
      else Matching(worker.key, found.value, s.clock, found.value.namespaces, [])
    case MatchPattern(_, listing) =>
      Matching(worker.key, worker.crypt, worker.cryptAt, worker.patterns[1..],
               worker.matched + FilterMatches(cfg, worker.patterns[0], listing))
    case Plan(_) => Running(worker.key, worker.crypt, worker.cryptAt, Tasks(worker.crypt.secrets, worker.matched))
    case FetchData(_, fault) =>
      if fault || worker.todo[0].def.key !in s.store then NextTask(worker)
      else Fetched(worker.key, worker.crypt, worker.cryptAt, worker.todo,
                   Rendered(s.store, worker.crypt, worker.todo[0]), s.clock)
    case Create(_, fault) =>
      if !fault && worker.todo[0].Id() in s.secrets then
        Conflicted(worker.key, worker.crypt, worker.cryptAt, worker.todo, worker.secret, worker.dataAt)
      else NextTask(worker)
    case Update(_, _) => NextTask(worker)
    case Release(_) => Idle
  }

  ghost function WorkersAfter(cfg: Config, s: State, step: Step): seq<Worker>
    requires Enabled(s, step)
  {
    if IsWorkerStep(step) then s.workers[step.w := WorkerAfter(cfg, s, step)] else s.workers
  }

  ghost function Apply(cfg: Config, s: State, step: Step): State
    requires Enabled(s, step)
  {
    State(CryptsAfter(s, step), NamespacesAfter(s, step), StoreAfter(s, step), SecretsAfter(s, step),
          QueueAfter(cfg, s, step), EventsAfter(s, step), WorkersAfter(cfg, s, step), s.clock + 1, LogAfter(s, step))
  }

  // --- Runs -------------------------------------------------------------------------------------------

  ghost predicate Next(cfg: Config, s: State, step: Step, after: State) {
    Enabled(s, step) && after == Apply(cfg, s, step)
  }

  ghost predicate IsRun(cfg: Config, states: seq<State>, steps: seq<Step>) {
    && |states| == |steps| + 1
    && forall i :: 0 <= i < |steps| ==> Next(cfg, states[i], steps[i], states[i + 1])
  }

  /** Some run from an initial state ends here. */
  ghost predicate Reachable(cfg: Config, s: State) {
    exists states, steps :: IsRun(cfg, states, steps) && Init(states[0]) && states[|steps|] == s
  }

  lemma InitIsReachable(cfg: Config, s: State)
    requires Init(s)
    ensures Reachable(cfg, s)
  {
    assert IsRun(cfg, [s], []);
  }

  lemma NextIsReachable(cfg: Config, s: State, step: Step, after: State)
    requires Reachable(cfg, s) && Next(cfg, s, step, after)
    ensures Reachable(cfg, after)
  {
    hide Next, Init;
    var states, steps :| IsRun(cfg, states, steps) && Init(states[0]) && states[|steps|] == s;
    var longer, longerSteps := states + [after], steps + [step];
    forall i | 0 <= i < |longerSteps|
      ensures Next(cfg, longer[i], longerSteps[i], longer[i + 1])
    {
      if i < |steps| {
        assert Next(cfg, states[i], steps[i], states[i + 1]);
      }
    }
    assert IsRun(cfg, longer, longerSteps);
  }

  /** The clock of the i-th state of a run that starts at clock 0 is i. */
  lemma {:induction false} ClockIsIndex(cfg: Config, states: seq<State>, steps: seq<Step>, i: nat)
    requires IsRun(cfg, states, steps) && states[0].clock == 0 && i < |states|
    ensures states[i].clock == i
  {
    if i > 0 {
      ClockIsIndex(cfg, states, steps, i - 1);
      assert Next(cfg, states[i - 1], steps[i - 1], states[i - 1 + 1]);
    }
  }
}
