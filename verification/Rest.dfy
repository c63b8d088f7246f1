/**
 The system comes to rest. Once the environment leaves it alone, handlers, delays and workers have only finitely many
 steps left, whatever fails and whoever moves; and they have one left until nothing is under way.
 */
module Rest {
  import opened Common
  import opened Resources
  import opened QueueKeys
  import opened WorkQueues
  import opened Reconcile
  import opened Handlers
  import opened Machine
  import opened Discipline
  import opened WakeUp

  /** A step of the controller: a handler, a delay that runs out, or a worker. */
  predicate IsInternal(step: Step) {
    IsWorkerStep(step) || step.HandleCrypt? || step.HandleNamespace? || step.HandleDelete? || step.DelayOver?
  }

  /** Nothing is under way; on a closed queue every worker has left as well. */
  ghost predicate AtRest(s: State) {
    && s.events == multiset{} && s.queue.delayed == {} && s.queue.waiting == [] && AllIdle(s)
    && (s.queue.closed ==> forall i :: 0 <= i < |s.workers| ==> s.workers[i].Exited?)
  }

  // --- What is left to do --------------------------------------------------------------------------------

  function Sum(workers: seq<Worker>, f: Worker -> nat): nat {
    if workers == [] then 0 else f(workers[0]) + Sum(workers[1..], f)
  }

  lemma {:induction false} SumUpdate(workers: seq<Worker>, w: nat, worker: Worker, f: Worker -> nat)
    requires w < |workers|
    ensures Sum(workers[w := worker], f) + f(workers[w]) == Sum(workers, f) + f(worker)
  {
    if w == 0 {
      assert workers[0 := worker][1..] == workers[1..];
    } else {
      assert workers[w := worker][1..] == workers[1..][w - 1 := worker];
      SumUpdate(workers[1..], w - 1, worker, f);
    }
  }

  function Alive(worker: Worker): nat {
    if worker.Exited? then 0 else 1
  }

  /** Events, delays and dirty keys first; then how far the workers are, taken together. */
  datatype Left = Left(events: nat, delayed: nat, dirty: nat, phase: nat, remaining: nat, stage: nat, alive: nat)

  ghost function LeftIn(s: State): Left {
    Left(|s.events|, |s.queue.delayed|, |s.queue.dirty|,
         Sum(s.workers, Phase), Sum(s.workers, Remaining), Sum(s.workers, Stage), Sum(s.workers, Alive))
  }

  /** Less is left: the first part in which the two differ is smaller. */
  predicate Less(a: Left, b: Left) {
    || a.events < b.events
    || (a.events == b.events && a.delayed < b.delayed)
    || (a.events == b.events && a.delayed == b.delayed && a.dirty < b.dirty)
    || (a.events == b.events && a.delayed == b.delayed && a.dirty == b.dirty && LessWork(a, b))
  }

  predicate LessWork(a: Left, b: Left) {
    || a.phase < b.phase
    || (a.phase == b.phase && a.remaining < b.remaining)
    || (a.phase == b.phase && a.remaining == b.remaining && a.stage < b.stage)
    || (a.phase == b.phase && a.remaining == b.remaining && a.stage == b.stage && a.alive < b.alive)
  }

  lemma WorkDescends(cfg: Config, s: State, step: Step)
    requires Enabled(s, step) && IsWorkerStep(step) && !step.TakeKey?
    ensures LessWork(LeftIn(Apply(cfg, s, step)), LeftIn(s))
  {
    var after := WorkerAfter(cfg, s, step);
    hide Enabled, ShowsCaches, QueueAfter, EventsAfter, SecretsAfter, LogAfter;
    SumUpdate(s.workers, step.w, after, Phase);
    SumUpdate(s.workers, step.w, after, Remaining);
    SumUpdate(s.workers, step.w, after, Stage);
    SumUpdate(s.workers, step.w, after, Alive);
    if step.Exit? {
      assert s.workers[step.w].Idle? by { IdleExits(s, step); }
    } else {
      BusyUnlessTaking(s, step);
      WorkerStepsDescend(cfg, s, step);
    }
  }

  lemma IdleExits(s: State, step: Step)
    requires Enabled(s, step) && step.Exit?
    ensures s.workers[step.w].Idle?
  {
  }

  lemma BusyUnlessTaking(s: State, step: Step)
    requires Enabled(s, step) && IsWorkerStep(step) && !step.TakeKey? && !step.Exit?
    ensures s.workers[step.w].Busy()
  {
  }

  lemma WorkerKeepsOutside(cfg: Config, s: State, step: Step)
    requires Enabled(s, step) && IsWorkerStep(step)
    ensures EventsAfter(s, step) == s.events
    ensures QueueAfter(cfg, s, step).delayed == s.queue.delayed
    ensures !step.TakeKey? ==> QueueAfter(cfg, s, step).dirty == s.queue.dirty
  {
    hide ShowsCaches;
  }

  lemma TakingCleans(cfg: Config, s: State, step: Step)
    requires Enabled(s, step) && step.TakeKey? && WellFormed(s.queue)
    ensures |QueueAfter(cfg, s, step).dirty| < |s.queue.dirty|
  {
    TakeKeepsWellFormed(s.queue);
    TakeRemoves(s.queue);
  }

  lemma TakeRemoves(q: Queue<string>)
    requires q.waiting != [] && q.waiting[0] in q.dirty
    ensures |Take(q).dirty| < |q.dirty|
  {
    assert q.dirty == Take(q).dirty + {q.waiting[0]};
  }

  lemma HandlerConsumes(s: State, step: Step)
    requires Enabled(s, step) && (step.HandleCrypt? || step.HandleNamespace? || step.HandleDelete?)
    ensures |EventsAfter(s, step)| < |s.events|
  {
    hide ShowsCaches;
    match step
    case HandleCrypt(crypt) => OneLess(s.events, CryptEvent(crypt));
    case HandleNamespace(name, _, _) => OneLess(s.events, NamespaceEvent(name));
    case HandleDelete(secret, _) => OneLess(s.events, DeleteEvent(secret));
  }

  lemma OneLess(events: multiset<Event>, e: Event)
    requires e in events
    ensures |events + multiset{} - multiset{e}| < |events|
  {
    assert events + multiset{} - multiset{e} + multiset{e} == events;
  }

  lemma DelayEnds(cfg: Config, s: State, step: Step)
    requires Enabled(s, step) && step.DelayOver?
    ensures EventsAfter(s, step) == s.events
    ensures |QueueAfter(cfg, s, step).delayed| < |s.queue.delayed|
  {
    assert s.queue.delayed == QueueAfter(cfg, s, step).delayed + {step.key};
  }

  /** Every step of the controller leaves less to do, failing calls and keys added again included. */
  lemma {:induction false} InternalStepDescends(cfg: Config, s: State, step: Step)
    requires Enabled(s, step) && IsInternal(step) && Disciplined(s)
    ensures Less(LeftIn(Apply(cfg, s, step)), LeftIn(s))
  {
    hide Enabled, EventsAfter, QueueAfter, WellFormed;
    if IsWorkerStep(step) {
      WorkerKeepsOutside(cfg, s, step);
      if step.TakeKey? {
        TakingCleans(cfg, s, step);
      } else {
        WorkDescends(cfg, s, step);
      }
    } else if step.DelayOver? {
      DelayEnds(cfg, s, step);
    } else {
      HandlerConsumes(s, step);
    }
  }

  // --- Until it is at rest it can move -------------------------------------------------------------------

  /** A worker with a secret in hand has the task for it. */
  ghost predicate HaveTasks(workers: seq<Worker>) {
    forall i :: 0 <= i < |workers| && workers[i].Writing() ==> workers[i].todo != []
  }

  lemma {:induction false} SomeLists(homes: seq<string>, cache: map<string, Crypt>)
    returns (lists: map<string, seq<Crypt>>)
    ensures forall h :: h in homes ==> h in lists && IsListing(lists[h], CryptsIn(cache, h))
  {
    lists := map[];
    if homes != [] {
      lists := SomeLists(homes[1..], cache);
      var list := SomeListing(CryptsIn(cache, homes[0]));
      lists := lists[homes[0] := list];
    }
  }

  /** No call is broken, and a deletion is handled with a complete listing. */
  ghost predicate Faultless(s: State, step: Step) {
    match step
    case HandleDelete(_, listed) => forall k :: k in s.crypts ==> s.crypts[k].namespace in listed
    case FetchData(_, fault) => !fault
    case Create(_, fault) => !fault
    case Update(_, fault) => !fault
    case _ => true
  }

  lemma EventCanBeHandled(s: State, e: Event) returns (step: Step)
    requires e in s.events
    ensures IsInternal(step) && Enabled(s, step) && Faultless(s, step)
  {
    match e
    case CryptEvent(crypt) => step := HandleCrypt(crypt);
    case DeleteEvent(secret) =>
      var homes := set k | k in s.crypts :: s.crypts[k].namespace;
      var listed := SomeListing(homes);
      forall k | k in s.crypts
        ensures s.crypts[k].namespace in listed
      {
        InListing(listed, homes, s.crypts[k].namespace);
      }
      step := HandleDelete(secret, listed);
    case NamespaceEvent(name) =>
      var homes := SomeListing(s.namespaces);
      var lists := SomeLists(homes, s.crypts);
      step := HandleNamespace(name, homes, lists);
  }

  /** Unless everything is at rest some step of the controller is possible; waiting keys need a worker to be there. */
  lemma CanStep(s: State) returns (step: Step)
    requires !AtRest(s) && HaveTasks(s.workers)
    requires s.queue.waiting != [] ==> exists i :: 0 <= i < |s.workers| && !s.workers[i].Exited?
    ensures IsInternal(step) && Enabled(s, step) && Faultless(s, step)
  {
    if s.events != multiset{} {
      var e :| e in s.events;
      step := EventCanBeHandled(s, e);
    } else if s.queue.delayed != {} {
      var key :| key in s.queue.delayed;
      step := DelayOver(key);
    } else if w: nat :| w < |s.workers| && s.workers[w].Busy() {
      step := BusyWorkerCanStep(s, w);
    } else if s.queue.waiting != [] {
      var w: nat :| w < |s.workers| && !s.workers[w].Exited?;
      step := TakeKey(w);
    } else {
      var w: nat :| w < |s.workers| && !s.workers[w].Exited?;
      step := Exit(w);
    }
  }

  ghost predicate AllExited(workers: seq<Worker>) {
    forall i :: 0 <= i < |workers| ==> workers[i].Exited?
  }

  /** There are workers, those with a secret in hand have its task, and the last to leave leaves nothing waiting. */
  ghost predicate Manned(s: State) {
    && s.workers != [] && HaveTasks(s.workers)
    && (AllExited(s.workers) ==> s.queue.closed && s.queue.waiting == [])
  }

  /** Whoever leaves last finds the queue closed and empty. */
  lemma LastOneOut(cfg: Config, s: State, step: Step)
    requires Enabled(s, step) && IsWorkerStep(step) && AllExited(WorkersAfter(cfg, s, step))
    ensures QueueAfter(cfg, s, step).closed && QueueAfter(cfg, s, step).waiting == []
  {
    assert WorkersAfter(cfg, s, step)[step.w].Exited?;
    assert step.Exit?;
  }

  /** A closed queue takes nothing in: only a worker's release makes a key wait again. */
  lemma ClosedTakesNothingIn(cfg: Config, s: State, step: Step)
    requires Enabled(s, step) && !IsWorkerStep(step) && s.queue.closed
    ensures QueueAfter(cfg, s, step).closed && QueueAfter(cfg, s, step).waiting == s.queue.waiting
  {
    if step.HandleNamespace? {
      EnqueueAllKeys(s.queue, CryptsForNamespace(cfg, step.homes, step.lists, step.name));
    }
  }

  lemma TasksStay(cfg: Config, s: State, step: Step)
    requires Enabled(s, step) && HaveTasks(s.workers)
    ensures HaveTasks(WorkersAfter(cfg, s, step)) && |WorkersAfter(cfg, s, step)| == |s.workers|
    ensures !IsWorkerStep(step) ==> WorkersAfter(cfg, s, step) == s.workers
  {
    hide ShowsCaches;
  }

  lemma MannedStep(cfg: Config, s: State, step: Step)
    requires Enabled(s, step) && Manned(s)
    ensures Manned(Apply(cfg, s, step))
  {
    hide Enabled, WorkersAfter, QueueAfter, EventsAfter, SecretsAfter, LogAfter, HaveTasks;
    TasksStay(cfg, s, step);
    if AllExited(WorkersAfter(cfg, s, step)) {
      if IsWorkerStep(step) {
        LastOneOut(cfg, s, step);
      } else {
        ClosedTakesNothingIn(cfg, s, step);
      }
    }
  }

  /**
   In no state of any run is a controller with workers stuck, shut down or not: unless everything is at rest, some step
   of its own is possible. In particular no key is left behind by workers that have all gone.
   */
  lemma {:induction false} NeverStalls(cfg: Config, states: seq<State>, steps: seq<Step>, i: nat) returns (step: Step)
    requires IsRun(cfg, states, steps) && Init(states[0]) && states[0].workers != [] && i < |states|
    requires !AtRest(states[i])
    ensures IsInternal(step) && Enabled(states[i], step)
  {
    hide Enabled, AtRest;
    MannedRun(cfg, states, steps, i);
    step := CanStep(states[i]);
  }

  lemma {:induction false} MannedRun(cfg: Config, states: seq<State>, steps: seq<Step>, i: nat)
    requires IsRun(cfg, states, steps) && Init(states[0]) && states[0].workers != [] && i < |states|
    ensures Manned(states[i])
  {
    hide Enabled, Apply;
    if i == 0 {
      assert states[0].workers[0].Idle?;
    } else {
      MannedRun(cfg, states, steps, i - 1);
      assert Next(cfg, states[i - 1], steps[i - 1], states[i - 1 + 1]);
      MannedStep(cfg, states[i - 1], steps[i - 1]);
    }
  }

  // --- So it gets there ----------------------------------------------------------------------------------

  /** From `i` on only the controller moves, and it does not stop before everything is at rest. */
  ghost predicate LeftAlone(cfg: Config, run: nat -> State, choice: nat -> Step, i: nat) {
    forall m: nat :: i <= m && !AtRest(run(m)) ==> IsInternal(choice(m)) && Next(cfg, run(m), choice(m), run(m + 1))
  }

  /** Left alone, the controller comes to rest in every interleaving and with any failures. */
  lemma {:induction false} ComesToRest(cfg: Config, run: nat -> State, choice: nat -> Step, i: nat) returns (n: nat)
    requires Disciplined(run(i)) && LeftAlone(cfg, run, choice, i)
    ensures n >= i && AtRest(run(n)) && forall m: nat :: i <= m < n ==> !AtRest(run(m))
    decreases LeftIn(run(i)).events, LeftIn(run(i)).delayed, LeftIn(run(i)).dirty, LeftIn(run(i)).phase,
              LeftIn(run(i)).remaining, LeftIn(run(i)).stage, LeftIn(run(i)).alive
  {
    hide Enabled, Apply, AtRest, Disciplined, LeftIn;
    n := i;
    if !AtRest(run(i)) {
      assert Next(cfg, run(i), choice(i), run(i + 1));
      DisciplineStep(cfg, run(i), choice(i));
      InternalStepDescends(cfg, run(i), choice(i));
      n := ComesToRest(cfg, run, choice, i + 1);
    }
  }

  lemma OpenStaysOpen(cfg: Config, s: State, step: Step)
    requires Enabled(s, step) && IsInternal(step) && !s.queue.closed
    ensures !QueueAfter(cfg, s, step).closed
  {
    if step.HandleNamespace? {
      EnqueueAllKeys(s.queue, CryptsForNamespace(cfg, step.homes, step.lists, step.name));
    }
  }

  // --- Whatever was noticed is taken ---------------------------------------------------------------------

  /** The key is on the queue for good: a delayed key gets no further than that on a closed queue. */
  ghost predicate Scheduled(s: State, key: string) {
    Noticed(s, key) && (s.queue.closed ==> key in s.queue.dirty)
  }

  lemma DirtyStays(cfg: Config, s: State, step: Step, key: string)
    requires Disciplined(s) && Enabled(s, step) && key in s.queue.dirty && !Takes(s, step, key)
    ensures key in QueueAfter(cfg, s, step).dirty
  {
    if !IsWorkerStep(step) {
      OutsideQueue(cfg, s, step);
    }
  }

  lemma ScheduledStep(cfg: Config, s: State, step: Step, key: string)
    requires Disciplined(s) && Enabled(s, step) && IsInternal(step) && Scheduled(s, key) && !Takes(s, step, key)
    ensures Scheduled(Apply(cfg, s, step), key)
  {
    hide Enabled, Takes;
    if s.queue.closed {
      DirtyStays(cfg, s, step, key);
    } else {
      OpenStaysOpenAfter(cfg, s, step);
      NoticePersists(cfg, s, step, key);
    }
  }

  lemma NothingScheduledAtRest(s: State, key: string)
    requires Disciplined(s) && AtRest(s)
    ensures !Scheduled(s, key)
  {
    assert HeldKeys(s.workers) == {};
    assert (set k | k in s.queue.waiting) == {};
    assert s.queue.dirty == s.queue.dirty - s.queue.processing;
  }

  /** A noticed key is taken in the end: on a closed queue too, unless it was only delayed. */
  lemma {:induction false} ScheduledIsTaken(cfg: Config, run: nat -> State, choice: nat -> Step, i: nat, key: string)
    returns (n: nat)
    requires Disciplined(run(i)) && LeftAlone(cfg, run, choice, i) && Scheduled(run(i), key)
    ensures n >= i && Takes(run(n), choice(n), key) && forall m: nat :: i <= m <= n ==> !AtRest(run(m))
    decreases LeftIn(run(i)).events, LeftIn(run(i)).delayed, LeftIn(run(i)).dirty, LeftIn(run(i)).phase,
              LeftIn(run(i)).remaining, LeftIn(run(i)).stage, LeftIn(run(i)).alive
  {
    hide Enabled, Apply, AtRest, Disciplined, LeftIn, Scheduled, Takes;
    n := i;
    if AtRest(run(i)) {
      NothingScheduledAtRest(run(i), key);
    } else if !Takes(run(i), choice(i), key) {
      assert Next(cfg, run(i), choice(i), run(i + 1));
      DisciplineStep(cfg, run(i), choice(i));
      ScheduledStep(cfg, run(i), choice(i), key);
      InternalStepDescends(cfg, run(i), choice(i));
      n := ScheduledIsTaken(cfg, run, choice, i + 1, key);
    }
  }

  /** A crypt event on an open queue ends with a worker taking the crypt's key. */
  lemma {:induction false} CryptEventIsTaken(cfg: Config, run: nat -> State, choice: nat -> Step, i: nat, crypt: Crypt)
    returns (n: nat)
    requires Disciplined(run(i)) && !run(i).queue.closed && LeftAlone(cfg, run, choice, i)
    requires CryptEvent(crypt) in run(i).events
    ensures n >= i && Takes(run(n), choice(n), KeyOf(crypt))
    decreases LeftIn(run(i)).events, LeftIn(run(i)).delayed, LeftIn(run(i)).dirty, LeftIn(run(i)).phase,
              LeftIn(run(i)).remaining, LeftIn(run(i)).stage, LeftIn(run(i)).alive
  {
    hide Enabled, Apply, Disciplined, LeftIn, Takes, KeyOf, Noticed;
    assert Next(cfg, run(i), choice(i), run(i + 1));
    ResyncStep(cfg, run(i), choice(i), run(i + 1), crypt);
    if Takes(run(i), choice(i), KeyOf(crypt)) {
      n := i;
    } else {
      DisciplineStep(cfg, run(i), choice(i));
      OpenStaysOpenAfter(cfg, run(i), choice(i));
      if CryptEvent(crypt) in run(i + 1).events {
        InternalStepDescends(cfg, run(i), choice(i));
        n := CryptEventIsTaken(cfg, run, choice, i + 1, crypt);
      } else {
        n := ScheduledIsTaken(cfg, run, choice, i + 1, KeyOf(crypt));
      }
    }
  }

  /** So every resync has the crypt's key taken, by which a crypt that was passed over is synced after all. */
  lemma ResyncIsTaken(cfg: Config, run: nat -> State, choice: nat -> Step, i: nat, key: string) returns (n: nat)
    requires Disciplined(run(i)) && !run(i).queue.closed && key in run(i).crypts && KeyOf(run(i).crypts[key]) == key
    requires choice(i) == Resync(key) && Next(cfg, run(i), choice(i), run(i + 1))
    requires LeftAlone(cfg, run, choice, i + 1)
    ensures n > i && Takes(run(n), choice(n), key)
  {
    hide Enabled, Disciplined, Takes, KeyOf;
    DisciplineStep(cfg, run(i), choice(i));
    ResyncRaises(cfg, run(i), key, run(i + 1));
    n := CryptEventIsTaken(cfg, run, choice, i + 1, run(i).crypts[key]);
  }

  ghost predicate Complete(cfg: Config, s: State) {
    forall key, id :: Wants(cfg, s, key, id) ==> id in s.secrets
  }

  /**
   A clean run that is left alone on an open queue comes to rest, and then every wanted secret exists: nothing that
   the wake-up theorem calls awaited is awaited forever.
   */
  lemma {:induction false} ComesToCompletion(cfg: Config, run: nat -> State, choice: nat -> Step, i: nat)
    returns (n: nat)
    requires WakeInvariant(cfg, run(i)) && !run(i).queue.closed && LeftAlone(cfg, run, choice, i)
    requires StaysClean(cfg, run, choice, i)
    ensures n >= i && Drained(run(n)) && Complete(cfg, run(n))
    ensures run(n).crypts == run(i).crypts && run(n).namespaces == run(i).namespaces
    decreases LeftIn(run(i)).events, LeftIn(run(i)).delayed, LeftIn(run(i)).dirty, LeftIn(run(i)).phase,
              LeftIn(run(i)).remaining, LeftIn(run(i)).stage, LeftIn(run(i)).alive
  {
    hide Enabled, AtRest, Disciplined, LeftIn, Clean, NoLostWakeUp, CryptsAfter, NamespacesAfter;
    n := i;
    if AtRest(run(i)) {
      RestIsComplete(cfg, run(i));
    } else {
      assert Next(cfg, run(i), choice(i), run(i + 1));
      WakeUpStep(cfg, run(i), choice(i), run(i + 1));
      OpenStaysOpenAfter(cfg, run(i), choice(i));
      InternalKeepsCaches(cfg, run(i), choice(i));
      InternalStepDescends(cfg, run(i), choice(i));
      n := ComesToCompletion(cfg, run, choice, i + 1);
    }
  }

  lemma OpenStaysOpenAfter(cfg: Config, s: State, step: Step)
    requires Enabled(s, step) && IsInternal(step) && !s.queue.closed
    ensures !Apply(cfg, s, step).queue.closed
  {
    hide Enabled;
    OpenStaysOpen(cfg, s, step);
  }

  lemma RestIsComplete(cfg: Config, s: State)
    requires WakeInvariant(cfg, s) && AtRest(s) && !s.queue.closed
    ensures Drained(s) && Complete(cfg, s)
  {
    forall key, id | Wants(cfg, s, key, id)
      ensures id in s.secrets
    {
      DrainedIsComplete(cfg, s, key, id);
    }
  }

  // --- The delete race, to its end -----------------------------------------------------------------------

  ghost predicate StaysClean(cfg: Config, run: nat -> State, choice: nat -> Step, i: nat) {
    forall m: nat :: i <= m && Enabled(run(m), choice(m)) ==> Clean(cfg, run(m), choice(m))
  }

  lemma InternalKeepsCaches(cfg: Config, s: State, step: Step)
    requires Enabled(s, step) && IsInternal(step)
    ensures CryptsAfter(s, step) == s.crypts && NamespacesAfter(s, step) == s.namespaces
  {
  }

  lemma PendingIsNoRest(s: State, e: Event)
    requires e in s.events
    ensures !AtRest(s)
  {
  }

  lemma NextWhenAlone(cfg: Config, run: nat -> State, choice: nat -> Step, i: nat)
    requires LeftAlone(cfg, run, choice, i) && StaysClean(cfg, run, choice, i) && !AtRest(run(i))
    ensures IsInternal(choice(i)) && CleanNext(cfg, run(i), choice(i), run(i + 1))
  {
    hide AtRest, Clean, Enabled;
    assert Next(cfg, run(i), choice(i), run(i + 1));
  }

  /** One step on, less is left, the queue is as open and the caches are as they were. */
  lemma StillAlone(cfg: Config, run: nat -> State, choice: nat -> Step, i: nat)
    requires Next(cfg, run(i), choice(i), run(i + 1)) && IsInternal(choice(i)) && Disciplined(run(i))
    ensures Less(LeftIn(run(i + 1)), LeftIn(run(i)))
    ensures !run(i).queue.closed ==> !run(i + 1).queue.closed
    ensures run(i + 1).crypts == run(i).crypts && run(i + 1).namespaces == run(i).namespaces
  {
    hide Enabled, Disciplined, LeftIn, CryptsAfter, NamespacesAfter;
    InternalStepDescends(cfg, run(i), choice(i));
    InternalKeepsCaches(cfg, run(i), choice(i));
    if !run(i).queue.closed {
      OpenStaysOpenAfter(cfg, run(i), choice(i));
    }
  }

  /** An event that concerns a crypt on an open queue ends with a worker taking the crypt's key. */
  lemma {:induction false} EventIsTaken(cfg: Config, run: nat -> State, choice: nat -> Step, i: nat,
                                        e: Event, key: string, id: SecretId) returns (n: nat)
    requires WakeInvariant(cfg, run(i)) && !run(i).queue.closed
    requires LeftAlone(cfg, run, choice, i) && StaysClean(cfg, run, choice, i)
    requires key in run(i).crypts && Targets(cfg, run(i).crypts[key], id)
    requires e in run(i).events && Wakes(e, key, run(i).crypts[key].name, id)
    ensures n >= i && Takes(run(n), choice(n), key)
    decreases LeftIn(run(i)).events, LeftIn(run(i)).delayed, LeftIn(run(i)).dirty, LeftIn(run(i)).phase,
              LeftIn(run(i)).remaining, LeftIn(run(i)).stage, LeftIn(run(i)).alive
  {
    hide Next, Disciplined, LeftIn, Takes, Noticed, Clean, NoLostWakeUp, Targets, Wakes, AtRest;
    PendingIsNoRest(run(i), e);
    NextWhenAlone(cfg, run, choice, i);
    hide LeftAlone, StaysClean;
    AlertStep(cfg, run(i), choice(i), run(i + 1), e, key, id);
    if Takes(run(i), choice(i), key) {
      n := i;
    } else {
      WakeUpStep(cfg, run(i), choice(i), run(i + 1));
      StillAlone(cfg, run, choice, i);
      if e in run(i + 1).events {
        n := EventIsTaken(cfg, run, choice, i + 1, e, key, id);
      } else {
        n := ScheduledIsTaken(cfg, run, choice, i + 1, key);
      }
    }
  }

  /**
   A deletion, in whatever stage the workers are, is followed by a worker taking the owner's key, and when everything
   has come to rest the secret exists again.
   */
  lemma DeletionIsUndone(cfg: Config, run: nat -> State, choice: nat -> Step, i: nat, key: string, id: SecretId)
    returns (n: nat, m: nat)
    requires WakeInvariant(cfg, run(i)) && !run(i).queue.closed && Wants(cfg, run(i), key, id)
    requires choice(i) == SecretDeleted(id) && CleanNext(cfg, run(i), choice(i), run(i + 1))
    requires LeftAlone(cfg, run, choice, i + 1) && StaysClean(cfg, run, choice, i + 1)
    ensures n > i && Takes(run(n), choice(n), key)
    ensures m > i && Drained(run(m)) && id in run(m).secrets
  {
    hide Clean, Takes, Wakes, WakeInvariant, Targets;
    var e := DeletionRaises(cfg, run(i), id, run(i + 1), key);
    WakeUpStep(cfg, run(i), choice(i), run(i + 1));
    n := EventIsTaken(cfg, run, choice, i + 1, e, key, id);
    m := ComesToCompletion(cfg, run, choice, i + 1);
    assert Wants(cfg, run(m), key, id);
  }
}
