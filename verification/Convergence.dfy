/**
 Convergence. Once the environment is quiet and no two crypts want one identity, the workers' interleaved lookups,
 Creates and Updates leave exactly what running the same syncs one after another would leave, in any order.
 */
module Convergence {
  import opened Common
  import opened Resources
  import opened QueueKeys
  import opened WorkQueues
  import opened Reconcile
  import opened Handlers
  import opened Machine
  import opened Discipline
  import opened WakeUp

  /** Caches, store and secrets change by nobody else's hand, and a call fails only when it has to. */
  ghost predicate Quiet(cfg: Config, s: State, step: Step)
    requires Enabled(s, step)
  {
    match step
    case CryptCached(_) => false
    case CryptRemoved(_) => false
    case NamespaceCached(_) => false
    case NamespaceRemoved(_) => false
    case StoreChanged(_) => false
    case SecretDeleted(_) => false
    case SecretWritten(_) => false
    case FetchData(w, fault) => fault ==> s.workers[w].todo[0].def.key !in s.store
    case Create(w, fault) => fault <==> cfg.denies(s.workers[w].secret)
    case Update(w, fault) => fault <==> cfg.denies(s.workers[w].secret)
    case _ => true
  }

  /** What the crypt cached under the key wants at the identity. */
  ghost function DesiredBy(cfg: Config, s: State, key: string, id: SecretId): Option<Secret> {
    if key in s.crypts then Desired(cfg, s.store, s.namespaces, s.crypts[key], id) else None
  }

  ghost predicate Disjoint(cfg: Config, s: State) {
    forall k, l, id :: DesiredBy(cfg, s, k, id).Some? && DesiredBy(cfg, s, l, id).Some? ==> k == l
  }

  ghost predicate SameWorld(s: State, t: State) {
    s.crypts == t.crypts && s.namespaces == t.namespaces && s.store == t.store
  }

  // --- What a worker carries in a quiet run --------------------------------------------------------------

  ghost predicate QuietWorker(cfg: Config, s: State, worker: Worker) {
    && (worker.Matching? || worker.Running? || worker.Writing() ==>
          worker.key in s.crypts && worker.crypt == s.crypts[worker.key])
    && (worker.Matching? ==>
          (set ns | ns in worker.matched) + Selected(cfg, worker.patterns, s.namespaces)
            == Selected(cfg, worker.crypt.namespaces, s.namespaces))
    && (worker.Running? || worker.Writing() ==>
          forall t :: t in worker.todo ==> t.def in worker.crypt.secrets
                                           && t.namespace in Selected(cfg, worker.crypt.namespaces, s.namespaces))
    && (worker.Writing() ==>
          && worker.todo != [] && worker.todo[0].def.key in s.store
          && worker.secret == Rendered(s.store, worker.crypt, worker.todo[0]))
    && (worker.Conflicted? ==> worker.todo[0].Id() in s.secrets && !cfg.denies(worker.secret))
    && (worker.Finished? ==> worker.key !in s.crypts)
  }

  lemma MatchedSoFar(cfg: Config, worker: Worker, listing: seq<string>, namespaces: set<string>)
    requires worker.Matching? && worker.patterns != [] && IsListing(listing, namespaces)
    ensures (set ns | ns in worker.matched + FilterMatches(cfg, worker.patterns[0], listing))
              + Selected(cfg, worker.patterns[1..], namespaces)
         == (set ns | ns in worker.matched) + Selected(cfg, worker.patterns, namespaces)
  {
    var found := FilterMatches(cfg, worker.patterns[0], listing);
    forall ns
      ensures ns in worker.matched + found || ns in Selected(cfg, worker.patterns[1..], namespaces)
              <==> ns in worker.matched || ns in Selected(cfg, worker.patterns, namespaces)
    {
      FilterMatchesMembers(cfg, worker.patterns[0], listing, ns);
      InListing(listing, namespaces, ns);
      assert forall p :: p in worker.patterns <==> p == worker.patterns[0] || p in worker.patterns[1..];
    }
  }

  lemma QuietWorkerStep(cfg: Config, s: State, step: Step)
    requires Enabled(s, step) && Quiet(cfg, s, step) && IsWorkerStep(step) && ValidCache(s.crypts)
    requires QuietWorker(cfg, s, s.workers[step.w])
    ensures QuietWorker(cfg, s, WorkerAfter(cfg, s, step))
  {
    var worker := s.workers[step.w];
    if step.ReadCrypt? {
      LookupIsCached(s.crypts, worker.key);
    } else if step.MatchPattern? {
      MatchedSoFar(cfg, worker, step.listing, s.namespaces);
    } else if step.Plan? {
      forall t | t in Tasks(worker.crypt.secrets, worker.matched)
        ensures t.def in worker.crypt.secrets && t.namespace in Selected(cfg, worker.crypt.namespaces, s.namespaces)
      {
        TasksMembers(worker.crypt.secrets, worker.matched, t);
        assert t.namespace in (set ns | ns in worker.matched);
      }
    }
  }

  // --- The value invariant -------------------------------------------------------------------------------

  /** Left to finish, the worker leaves `want` at the identity. */
  ghost predicate WillHold(cfg: Config, s: State, worker: Worker, id: SecretId, want: Secret) {
    worker.Running? || worker.Writing() ==>
      OrElse(Outcome(cfg, s.store, worker.crypt, worker.todo, id), Find(s.secrets, id)) == Some(want)
  }

  /** The key's crypt has been synced, or a worker that holds the key will see to it. */
  ghost predicate Delivers(cfg: Config, s: State, key: string, id: SecretId, want: Secret) {
    && (key !in s.queue.processing ==> Find(s.secrets, id) == Some(want))
    && (forall i :: 0 <= i < |s.workers| && s.workers[i].Busy() && s.workers[i].key == key ==>
          WillHold(cfg, s, s.workers[i], id, want))
  }

  ghost predicate ValueAt(cfg: Config, first: State, s: State, taken: set<string>, id: SecretId) {
    && (forall key :: key in taken && DesiredBy(cfg, s, key, id).Some? ==>
          Delivers(cfg, s, key, id, DesiredBy(cfg, s, key, id).value))
    && ((forall key :: key in taken ==> DesiredBy(cfg, s, key, id).None?) ==>
          Find(s.secrets, id) == Find(first.secrets, id))
  }

  ghost predicate InProgress(cfg: Config, first: State, s: State, taken: set<string>) {
    && SameWorld(first, s) && ValidCache(s.crypts) && Disjoint(cfg, s)
    && Disciplined(s)
    && s.queue.processing <= taken
    && (forall i :: 0 <= i < |s.workers| ==> QuietWorker(cfg, s, s.workers[i]))
    && (forall id :: ValueAt(cfg, first, s, taken, id))
  }

  ghost function TakenAfter(s: State, step: Step, taken: set<string>): set<string>
    requires Enabled(s, step)
  {
    if step.TakeKey? then taken + {s.queue.waiting[0]} else taken
  }

  /** A write of a quiet worker goes to an identity its own crypt wants. */
  lemma WriteIsDesired(cfg: Config, s: State, worker: Worker)
    requires QuietWorker(cfg, s, worker) && worker.Writing() && !cfg.denies(worker.secret)
    ensures DesiredBy(cfg, s, worker.key, worker.todo[0].Id()).Some?
    ensures Effective(cfg, s.store, worker.crypt, worker.todo[0])
  {
    var t := worker.todo[0];
    assert t in worker.todo && t == Task(t.def, t.Id().namespace);
    LastGoodIsLast(cfg, s.store, worker.crypt, worker.crypt.secrets, t.Id());
    assert IsGood(cfg, s.store, worker.crypt, t.def, t.Id());
  }

  /** Planning turns what the crypt wants into what the tasks will leave. */
  lemma PlanDelivers(cfg: Config, s: State, worker: Worker, id: SecretId)
    requires QuietWorker(cfg, s, worker) && worker.Matching? && worker.patterns == []
    ensures Outcome(cfg, s.store, worker.crypt, Tasks(worker.crypt.secrets, worker.matched), id)
         == DesiredBy(cfg, s, worker.key, id)
  {
    assert Selected(cfg, worker.patterns, s.namespaces) == {};
    TasksOutcome(cfg, s.store, worker.crypt, s.namespaces, worker.matched, id);
  }

  /** Passing over a task that has no effect, or writing one that has, keeps what the rest will leave. */
  lemma TaskStepHolds(cfg: Config, s: State, step: Step, id: SecretId, want: Secret)
    requires Enabled(s, step) && Quiet(cfg, s, step) && (step.FetchData? || step.Create? || step.Update?)
    requires QuietWorker(cfg, s, s.workers[step.w])
    requires WillHold(cfg, s, s.workers[step.w], id, want)
    ensures WillHold(cfg, Apply(cfg, s, step), WorkerAfter(cfg, s, step), id, want)
  {
    hide QueueAfter, EventsAfter, WorkersAfter, LogAfter, CryptsAfter, NamespacesAfter, ShowsCaches;
    var worker := s.workers[step.w];
    LastEffectiveIsEffective(cfg, s.store, worker.crypt, worker.todo[1..], id);
  }

  /** One worker step, for the key the worker holds. */
  lemma OwnStepHolds(cfg: Config, s: State, step: Step, id: SecretId)
    requires Enabled(s, step) && Quiet(cfg, s, step) && IsWorkerStep(step) && ValidCache(s.crypts)
    requires s.workers[step.w].Busy() && QuietWorker(cfg, s, s.workers[step.w])
    requires var want := DesiredBy(cfg, s, s.workers[step.w].key, id);
             want.Some? && WillHold(cfg, s, s.workers[step.w], id, want.value)
    ensures var want := DesiredBy(cfg, s, s.workers[step.w].key, id).value;
            && WillHold(cfg, Apply(cfg, s, step), WorkerAfter(cfg, s, step), id, want)
            && (step.Release? ==> Find(s.secrets, id) == Some(want))
  {
    var worker := s.workers[step.w];
    if step.Plan? {
      PlanDelivers(cfg, s, worker, id);
    } else if step.FetchData? || step.Create? || step.Update? {
      TaskStepHolds(cfg, s, step, id, DesiredBy(cfg, s, worker.key, id).value);
    }
  }

  /** A write leaves every identity alone that its crypt does not want. */
  lemma WriteElsewhere(cfg: Config, s: State, step: Step, id: SecretId)
    requires Enabled(s, step) && Quiet(cfg, s, step)
    requires IsWorkerStep(step) ==> QuietWorker(cfg, s, s.workers[step.w])
    requires IsWorkerStep(step) && s.workers[step.w].Busy() ==> DesiredBy(cfg, s, s.workers[step.w].key, id).None?
    ensures Find(SecretsAfter(s, step), id) == Find(s.secrets, id)
  {
    if Writes(s, step) {
      WriteIsDesired(cfg, s, s.workers[step.w]);
    }
  }

  lemma SameDesires(cfg: Config, s: State, t: State, key: string, id: SecretId)
    requires SameWorld(s, t)
    ensures DesiredBy(cfg, s, key, id) == DesiredBy(cfg, t, key, id)
  {
  }

  lemma QuietWorld(cfg: Config, s: State, step: Step)
    requires Enabled(s, step) && Quiet(cfg, s, step)
    ensures SameWorld(s, Apply(cfg, s, step))
    ensures !IsWorkerStep(step) ==> SecretsAfter(s, step) == s.secrets
  {
  }

  lemma BusyKeyIsHeld(s: State, w: nat)
    requires Disciplined(s) && w < |s.workers| && s.workers[w].Busy()
    ensures s.workers[w].key in s.queue.processing
  {
    assert s.workers[w].key in HeldKeys(s.workers);
  }

  /** What a step does to the set of held keys. */
  lemma HeldAfter(cfg: Config, s: State, step: Step, key: string)
    requires Disciplined(s) && Enabled(s, step)
    ensures key in QueueAfter(cfg, s, step).processing
            <==> (key in s.queue.processing && !(step.Release? && s.workers[step.w].key == key)) || Takes(s, step, key)
  {
    if !IsWorkerStep(step) {
      OutsideQueue(cfg, s, step);
    }
  }

  lemma DeliversStep(cfg: Config, first: State, s: State, step: Step, after: State, taken: set<string>, key: string,
                     id: SecretId)
    requires Next(cfg, s, step, after) && Quiet(cfg, s, step) && InProgress(cfg, first, s, taken)
    requires key in TakenAfter(s, step, taken) && DesiredBy(cfg, s, key, id).Some?
    ensures Delivers(cfg, after, key, id, DesiredBy(cfg, s, key, id).value)
  {
    hide Quiet, Apply, Delivers;
    if IsWorkerStep(step) && s.workers[step.w].Busy() && s.workers[step.w].key == key {
      DeliversByHolder(cfg, first, s, step, after, taken, key, id);
    } else if Takes(s, step, key) {
      DeliversByTaker(cfg, s, step, after, key, id, DesiredBy(cfg, s, key, id).value);
    } else {
      DeliversUntouched(cfg, first, s, step, after, taken, key, id);
    }
  }

  lemma DeliversByHolder(cfg: Config, first: State, s: State, step: Step, after: State, taken: set<string>,
                         key: string, id: SecretId)
    requires Next(cfg, s, step, after) && Quiet(cfg, s, step) && InProgress(cfg, first, s, taken)
    requires IsWorkerStep(step) && s.workers[step.w].Busy() && s.workers[step.w].key == key
    requires DesiredBy(cfg, s, key, id).Some?
    ensures Delivers(cfg, after, key, id, DesiredBy(cfg, s, key, id).value)
  {
    hide Quiet;
    HeldAfter(cfg, s, step, key);
    assert ValueAt(cfg, first, s, taken, id);
    BusyKeyIsHeld(s, step.w);
    OwnStepHolds(cfg, s, step, id);
    OthersDoNotHold(cfg, s, step, after, key);
  }

  lemma DeliversByTaker(cfg: Config, s: State, step: Step, after: State, key: string, id: SecretId, want: Secret)
    requires Next(cfg, s, step, after) && Disciplined(s) && Takes(s, step, key)
    ensures Delivers(cfg, after, key, id, want)
  {
    hide Next;
    TakerIsAlone(cfg, s, step, after, key);
  }

  lemma DeliversUntouched(cfg: Config, first: State, s: State, step: Step, after: State, taken: set<string>,
                          key: string, id: SecretId)
    requires Next(cfg, s, step, after) && Quiet(cfg, s, step) && InProgress(cfg, first, s, taken)
    requires key in taken && DesiredBy(cfg, s, key, id).Some? && !Takes(s, step, key)
    requires IsWorkerStep(step) && s.workers[step.w].Busy() ==> s.workers[step.w].key != key
    ensures Delivers(cfg, after, key, id, DesiredBy(cfg, s, key, id).value)
  {
    hide Quiet;
    QuietWorld(cfg, s, step);
    HeldAfter(cfg, s, step, key);
    assert ValueAt(cfg, first, s, taken, id);
    assert IsWorkerStep(step) ==> QuietWorker(cfg, s, s.workers[step.w]);
    WriteElsewhere(cfg, s, step, id);
    OthersUntouched(cfg, s, step, after, key);
  }

  lemma OthersDoNotHold(cfg: Config, s: State, step: Step, after: State, key: string)
    requires Next(cfg, s, step, after) && Disciplined(s) && IsWorkerStep(step)
    requires s.workers[step.w].Busy() && s.workers[step.w].key == key
    ensures forall i :: 0 <= i < |after.workers| && i != step.w && after.workers[i].Busy() ==>
              after.workers[i].key != key
  {
    forall i | 0 <= i < |after.workers| && i != step.w && after.workers[i].Busy()
      ensures after.workers[i].key != key
    {
      assert after.workers[i] == s.workers[i];
    }
  }

  lemma TakerIsAlone(cfg: Config, s: State, step: Step, after: State, key: string)
    requires Next(cfg, s, step, after) && Disciplined(s) && Takes(s, step, key)
    ensures key in after.queue.processing
    ensures forall i :: 0 <= i < |after.workers| && after.workers[i].Busy() && after.workers[i].key == key ==>
              after.workers[i].Taken?
  {
    TakeKeepsWellFormed(s.queue);
    forall i | 0 <= i < |s.workers| && s.workers[i].Busy()
      ensures s.workers[i].key != key
    {
      BusyKeyIsHeld(s, i);
    }
  }

  /** A step by a worker that does not hold the key, or by nobody, does not touch the workers that do. */
  lemma OthersUntouched(cfg: Config, s: State, step: Step, after: State, key: string)
    requires Next(cfg, s, step, after) && Disciplined(s) && !Takes(s, step, key)
    requires IsWorkerStep(step) && s.workers[step.w].Busy() ==> s.workers[step.w].key != key
    ensures forall i :: 0 <= i < |after.workers| && after.workers[i].Busy() && after.workers[i].key == key ==>
              i < |s.workers| && after.workers[i] == s.workers[i]
  {
    hide Apply;
    forall i | 0 <= i < |after.workers| && after.workers[i].Busy() && after.workers[i].key == key
      ensures i < |s.workers| && after.workers[i] == s.workers[i]
    {
      WorkersFrame(cfg, s, step, after, i);
      if IsWorkerStep(step) && i == step.w {
        HolderAfter(cfg, s, step);
      }
    }
  }

  /** A worker that is busy after its own step was busy with the key before, or has just taken it. */
  lemma HolderAfter(cfg: Config, s: State, step: Step)
    requires Enabled(s, step) && IsWorkerStep(step) && WorkerAfter(cfg, s, step).Busy()
    ensures Takes(s, step, WorkerAfter(cfg, s, step).key)
            || (s.workers[step.w].Busy() && s.workers[step.w].key == WorkerAfter(cfg, s, step).key)
  {
  }

  lemma ValueStep(cfg: Config, first: State, s: State, step: Step, after: State, taken: set<string>, id: SecretId)
    requires Next(cfg, s, step, after) && Quiet(cfg, s, step) && InProgress(cfg, first, s, taken)
    ensures ValueAt(cfg, first, after, TakenAfter(s, step, taken), id)
  {
    hide Enabled, Quiet, Apply;
    var now := TakenAfter(s, step, taken);
    QuietWorld(cfg, s, step);
    forall key | key in now && DesiredBy(cfg, after, key, id).Some?
      ensures Delivers(cfg, after, key, id, DesiredBy(cfg, after, key, id).value)
    {
      SameDesires(cfg, s, after, key, id);
      DeliversStep(cfg, first, s, step, after, taken, key, id);
    }
    if forall key :: key in now ==> DesiredBy(cfg, after, key, id).None? {
      UnwantedStep(cfg, first, s, step, after, taken, id);
    }
  }

  lemma UnwantedStep(cfg: Config, first: State, s: State, step: Step, after: State, taken: set<string>, id: SecretId)
    requires Next(cfg, s, step, after) && Quiet(cfg, s, step) && InProgress(cfg, first, s, taken) && SameWorld(s, after)
    requires forall key :: key in TakenAfter(s, step, taken) ==> DesiredBy(cfg, after, key, id).None?
    ensures Find(after.secrets, id) == Find(first.secrets, id)
  {
    hide Quiet;
    assert ValueAt(cfg, first, s, taken, id);
    forall key | key in taken
      ensures DesiredBy(cfg, s, key, id).None?
    {
      SameDesires(cfg, s, after, key, id);
    }
    if IsWorkerStep(step) {
      assert QuietWorker(cfg, s, s.workers[step.w]);
      if s.workers[step.w].Busy() {
        BusyKeyIsHeld(s, step.w);
      }
    }
    WriteElsewhere(cfg, s, step, id);
  }

  /** A worker's own secret-in-conflict is still there after anybody's quiet step. */
  lemma QuietWorkersStep(cfg: Config, s: State, step: Step, after: State)
    requires Next(cfg, s, step, after) && Quiet(cfg, s, step) && ValidCache(s.crypts)
    requires forall i :: 0 <= i < |s.workers| ==> QuietWorker(cfg, s, s.workers[i])
    ensures forall i :: 0 <= i < |after.workers| ==> QuietWorker(cfg, after, after.workers[i])
  {
    hide Quiet, Apply;
    QuietWorld(cfg, s, step);
    SecretsStay(cfg, s, step);
    forall i | 0 <= i < |after.workers|
      ensures QuietWorker(cfg, after, after.workers[i])
    {
      if IsWorkerStep(step) && i == step.w {
        QuietWorkerStep(cfg, s, step);
        WorkersFrame(cfg, s, step, after, i);
        QuietWorkerFrame(cfg, s, after, WorkerAfter(cfg, s, step));
      } else {
        WorkersFrame(cfg, s, step, after, i);
        QuietWorkerFrame(cfg, s, after, s.workers[i]);
      }
    }
  }

  lemma WorkersFrame(cfg: Config, s: State, step: Step, after: State, i: nat)
    requires Next(cfg, s, step, after) && i < |after.workers|
    ensures i < |s.workers|
    ensures after.workers[i] == if IsWorkerStep(step) && i == step.w then WorkerAfter(cfg, s, step) else s.workers[i]
    ensures after.secrets == SecretsAfter(s, step)
  {
  }

  lemma SecretsStay(cfg: Config, s: State, step: Step)
    requires Enabled(s, step) && Quiet(cfg, s, step)
    ensures forall id :: id in s.secrets ==> id in SecretsAfter(s, step)
  {
  }

  lemma QuietWorkerFrame(cfg: Config, s: State, t: State, worker: Worker)
    requires SameWorld(s, t) && QuietWorker(cfg, s, worker)
    requires forall id :: id in s.secrets ==> id in t.secrets
    ensures QuietWorker(cfg, t, worker)
  {
  }

  lemma InProgressStep(cfg: Config, first: State, s: State, step: Step, after: State, taken: set<string>)
    requires Next(cfg, s, step, after) && Quiet(cfg, s, step) && InProgress(cfg, first, s, taken)
    ensures InProgress(cfg, first, after, TakenAfter(s, step, taken))
  {
    hide Enabled, Quiet, Apply;
    QuietWorld(cfg, s, step);
    DisciplineStep(cfg, s, step);
    QuietWorkersStep(cfg, s, step, after);
    forall key | key in after.queue.processing
      ensures key in TakenAfter(s, step, taken)
    {
      ProcessingFrame(cfg, s, step, after);
      HeldAfter(cfg, s, step, key);
    }
    forall id
      ensures ValueAt(cfg, first, after, TakenAfter(s, step, taken), id)
    {
      ValueStep(cfg, first, s, step, after, taken, id);
    }
    forall k, l, id | DesiredBy(cfg, after, k, id).Some? && DesiredBy(cfg, after, l, id).Some?
      ensures k == l
    {
      SameDesires(cfg, s, after, k, id);
      SameDesires(cfg, s, after, l, id);
    }
  }

  lemma ProcessingFrame(cfg: Config, s: State, step: Step, after: State)
    requires Next(cfg, s, step, after)
    ensures after.queue == QueueAfter(cfg, s, step)
  {
  }

  // --- Whole quiet runs ----------------------------------------------------------------------------------

  ghost predicate QuietNext(cfg: Config, s: State, step: Step, after: State) {
    Next(cfg, s, step, after) && Quiet(cfg, s, step)
  }

  /** A run in a quiet environment that starts with every worker idle and no identity wanted twice. */
  ghost predicate IsQuietRun(cfg: Config, states: seq<State>, steps: seq<Step>) {
    && |states| == |steps| + 1
    && (forall i :: 0 <= i < |steps| ==> QuietNext(cfg, states[i], steps[i], states[i + 1]))
    && ValidCache(states[0].crypts) && Disciplined(states[0]) && Disjoint(cfg, states[0])
    && AllIdle(states[0])
  }

  /** The keys that workers took in the first `n` steps. */
  ghost function TakenKeys(states: seq<State>, steps: seq<Step>, n: nat): set<string>
    requires n <= |steps| < |states|
  {
    if n == 0 then {}
    else if steps[n - 1].TakeKey? && states[n - 1].queue.waiting != [] then
      TakenKeys(states, steps, n - 1) + {states[n - 1].queue.waiting[0]}
    else TakenKeys(states, steps, n - 1)
  }

  lemma {:induction false} QuietRunInProgress(cfg: Config, states: seq<State>, steps: seq<Step>, n: nat)
    requires IsQuietRun(cfg, states, steps) && n <= |steps|
    ensures InProgress(cfg, states[0], states[n], TakenKeys(states, steps, n))
  {
    hide Apply, Quiet;
    if n == 0 {
      assert HeldKeys(states[0].workers) == {};
    } else {
      QuietRunInProgress(cfg, states, steps, n - 1);
      assert QuietNext(cfg, states[n - 1], steps[n - 1], states[n - 1 + 1]);
      TakenAgrees(states[n - 1], steps[n - 1]);
      InProgressStep(cfg, states[0], states[n - 1], steps[n - 1], states[n], TakenKeys(states, steps, n - 1));
    }
  }

  lemma TakenAgrees(s: State, step: Step)
    requires Enabled(s, step)
    ensures step.TakeKey? ==> s.queue.waiting != []
  {
  }

  /**
   Convergence: once a crypt's key has been taken and nobody holds it, every secret the crypt wants is as it
   wants it.
   */
  lemma {:induction false} Converges(cfg: Config, states: seq<State>, steps: seq<Step>, n: nat, key: string,
                                     id: SecretId)
    requires IsQuietRun(cfg, states, steps) && n <= |steps|
    ensures key in TakenKeys(states, steps, n) && key !in states[n].queue.processing
            && DesiredBy(cfg, states[0], key, id).Some?
         ==> Find(states[n].secrets, id) == DesiredBy(cfg, states[0], key, id)
  {
    QuietRunInProgress(cfg, states, steps, n);
    assert ValueAt(cfg, states[0], states[n], TakenKeys(states, steps, n), id);
    SameDesires(cfg, states[0], states[n], key, id);
  }

  /** What no taken key's crypt wants is as it was. */
  lemma {:induction false} UnwantedIsUntouched(cfg: Config, states: seq<State>, steps: seq<Step>, n: nat, id: SecretId)
    requires IsQuietRun(cfg, states, steps) && n <= |steps|
    requires forall key :: key in TakenKeys(states, steps, n) ==> DesiredBy(cfg, states[0], key, id).None?
    ensures Find(states[n].secrets, id) == Find(states[0].secrets, id)
  {
    QuietRunInProgress(cfg, states, steps, n);
    assert ValueAt(cfg, states[0], states[n], TakenKeys(states, steps, n), id);
    forall key
      ensures DesiredBy(cfg, states[n], key, id) == DesiredBy(cfg, states[0], key, id)
    {
      SameDesires(cfg, states[0], states[n], key, id);
    }
  }

  // --- Interleaved equals serial ---------------------------------------------------------------------------

  /** The syncs of the given keys, one after the other; `matched` lists each crypt's selected namespaces. */
  ghost function Serial(cfg: Config, s: State, matched: map<string, seq<string>>, order: seq<string>,
                        api: Secrets): Secrets
    requires forall k :: k in s.crypts ==> k in matched
    decreases |order|
  {
    if order == [] then api
    else
      var key := order[0];
      var next := if key in s.crypts then SyncCrypt(cfg, s.store, s.crypts[key], matched[key], api) else api;
      Serial(cfg, s, matched, order[1..], next)
  }

  ghost predicate ListsSelected(cfg: Config, s: State, matched: map<string, seq<string>>) {
    forall k :: k in s.crypts ==>
      k in matched && (set ns | ns in matched[k]) == Selected(cfg, s.crypts[k].namespaces, s.namespaces)
  }

  lemma {:induction false} SerialAt(cfg: Config, s: State, matched: map<string, seq<string>>, order: seq<string>,
                                    api: Secrets, id: SecretId)
    requires ListsSelected(cfg, s, matched) && Disjoint(cfg, s)
    ensures forall key :: key in order && DesiredBy(cfg, s, key, id).Some? ==>
              Find(Serial(cfg, s, matched, order, api), id) == DesiredBy(cfg, s, key, id)
    ensures (forall key :: key in order ==> DesiredBy(cfg, s, key, id).None?) ==>
              Find(Serial(cfg, s, matched, order, api), id) == Find(api, id)
    decreases |order|
  {
    if order != [] {
      var key := order[0];
      var next := if key in s.crypts then SyncCrypt(cfg, s.store, s.crypts[key], matched[key], api) else api;
      SerialAt(cfg, s, matched, order[1..], next, id);
      if key in s.crypts {
        SyncMeaning(cfg, s.store, s.crypts[key], s.namespaces, matched[key], api, id);
      }
      assert forall k :: k in order <==> k == key || k in order[1..];
      assert key in order;
    }
  }

  /**
   Whenever in an interleaved run every worker is idle, the secrets are those that the syncs of the keys taken so
   far would leave, run one after another in any order and with any repetition.
   */
  lemma {:induction false} InterleavedEqualsSerial(cfg: Config, states: seq<State>, steps: seq<Step>,
                                                   matched: map<string, seq<string>>, order: seq<string>, n: nat)
    requires IsQuietRun(cfg, states, steps) && n <= |steps|
    ensures AllIdle(states[n]) && ListsSelected(cfg, states[0], matched)
            && (set k | k in order) == TakenKeys(states, steps, n)
         ==> states[n].secrets == Serial(cfg, states[0], matched, order, states[0].secrets)
  {
    var last := states[n];
    var taken := TakenKeys(states, steps, n);
    if AllIdle(last) && ListsSelected(cfg, states[0], matched) && (set k | k in order) == taken {
      var serial := Serial(cfg, states[0], matched, order, states[0].secrets);
      QuietRunInProgress(cfg, states, steps, n);
      assert last.queue.processing == {} by {
        assert HeldKeys(last.workers) == {};
      }
      forall id
        ensures Find(last.secrets, id) == Find(serial, id)
      {
        forall key {
          Converges(cfg, states, steps, n, key, id);
        }
        if forall key :: key in taken ==> DesiredBy(cfg, states[0], key, id).None? {
          UnwantedIsUntouched(cfg, states, steps, n, id);
        }
        SerialAt(cfg, states[0], matched, order, states[0].secrets, id);
        assert forall key :: key in order <==> key in taken;
      }
      MapsAgree(last.secrets, serial);
    }
  }

  // --- Stability -------------------------------------------------------------------------------------------

  lemma WriteIsCoherent(cfg: Config, s: State, worker: Worker, id: SecretId)
    requires QuietWorker(cfg, s, worker) && worker.Writing() && !cfg.denies(worker.secret) && worker.todo[0].Id() == id
    requires Coherent(cfg, s.store, worker.crypt, id)
    ensures DesiredBy(cfg, s, worker.key, id) == Some(worker.secret)
  {
    WriteIsDesired(cfg, s, worker);
    LastGoodIsLast(cfg, s.store, worker.crypt, worker.crypt.secrets, id);
    var t := worker.todo[0];
    assert t in worker.todo && t == Task(t.def, id.namespace);
  }

  lemma SettledStep(cfg: Config, first: State, s: State, step: Step, after: State, taken: set<string>, key: string,
                    id: SecretId)
    requires QuietNext(cfg, s, step, after) && InProgress(cfg, first, s, taken)
    requires DesiredBy(cfg, s, key, id).Some? && Coherent(cfg, s.store, s.crypts[key], id)
    requires Find(s.secrets, id) == DesiredBy(cfg, s, key, id)
    ensures Find(after.secrets, id) == DesiredBy(cfg, s, key, id)
  {
    if Writes(s, step) && s.workers[step.w].todo[0].Id() == id {
      var worker := s.workers[step.w];
      assert QuietWorker(cfg, s, worker);
      WriteIsDesired(cfg, s, worker);
      assert worker.key == key;
      WriteIsCoherent(cfg, s, worker, id);
    }
  }

  /**
   Once settled, a secret whose definitions agree is as its crypt wants it in every later state, mid-sync included.
   */
  lemma {:induction false} SettledForGood(cfg: Config, states: seq<State>, steps: seq<Step>, key: string, id: SecretId,
                                          n: nat, m: nat)
    requires IsQuietRun(cfg, states, steps) && n <= m <= |steps|
    ensures key in TakenKeys(states, steps, n) && key !in states[n].queue.processing
            && DesiredBy(cfg, states[0], key, id).Some? && Coherent(cfg, states[0].store, states[0].crypts[key], id)
         ==> Find(states[m].secrets, id) == DesiredBy(cfg, states[0], key, id)
  {
    hide QuietNext, Next, Coherent, InProgress, TakenKeys;
    if n == m {
      Converges(cfg, states, steps, n, key, id);
    } else if DesiredBy(cfg, states[0], key, id).Some? && Coherent(cfg, states[0].store, states[0].crypts[key], id)
              && key in TakenKeys(states, steps, n) && key !in states[n].queue.processing {
      SettledForGood(cfg, states, steps, key, id, n, m - 1);
      QuietRunInProgress(cfg, states, steps, m - 1);
      StillTheWorld(cfg, states[0], states[m - 1], TakenKeys(states, steps, m - 1), key, id);
      QuietRunStep(cfg, states, steps, m - 1);
      SettledStep(cfg, states[0], states[m - 1], steps[m - 1], states[m], TakenKeys(states, steps, m - 1), key, id);
    }
  }

  lemma QuietRunStep(cfg: Config, states: seq<State>, steps: seq<Step>, i: nat)
    requires IsQuietRun(cfg, states, steps) && i < |steps|
    ensures QuietNext(cfg, states[i], steps[i], states[i + 1])
  {
    hide QuietNext;
  }

  lemma StillTheWorld(cfg: Config, first: State, s: State, taken: set<string>, key: string, id: SecretId)
    requires InProgress(cfg, first, s, taken)
    ensures SameWorld(first, s)
    ensures DesiredBy(cfg, first, key, id) == DesiredBy(cfg, s, key, id)
    ensures DesiredBy(cfg, first, key, id).Some? ==> key in s.crypts
  {
  }
}
