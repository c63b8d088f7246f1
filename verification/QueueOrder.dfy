/**
 In which order, and how often, keys are handed out. The queue is first in, first out; and over every run each key is
 taken at most once for each delay that ran out, and each delay runs out at most once for each time a handler enqueued
 the key: additions may be merged, but no sync happens without one.
 */
module QueueOrder {
  import opened QueueKeys
  import opened WorkQueues
  import opened Handlers
  import opened Reconcile
  import opened Machine
  import opened Discipline

  /**
   A worker takes the key that has waited longest; every other step leaves the line as it is or adds one to its end.
  */
  lemma FirstInFirstOut(cfg: Config, s: State, step: Step)
    requires Enabled(s, step)
    ensures var before, after := s.queue.waiting, Apply(cfg, s, step).queue.waiting;
            if step.TakeKey? then
              before != [] && after == before[1..] && Apply(cfg, s, step).workers[step.w] == Taken(before[0])
            else
              before <= after && |after| <= |before| + 1
  {
    if step.HandleNamespace? {
      EnqueueAllKeys(s.queue, CryptsForNamespace(cfg, step.homes, step.lists, step.name));
    }
  }

  // --- One step's effect on one key ----------------------------------------------------------------------

  /** A handler puts the key on the queue. */
  ghost predicate Enqueues(cfg: Config, s: State, step: Step, key: string)
    requires Enabled(s, step)
  {
    match step
    case HandleCrypt(crypt) => KeyOf(crypt) == key
    case HandleNamespace(name, homes, lists) =>
      exists c :: c in CryptsForNamespace(cfg, homes, lists, name) && KeyOf(c) == key
    case HandleDelete(secret, listed) =>
      var owner := OwnerOfDeleted(s.crypts, listed, secret);
      owner.Some? && KeyOf(owner.value) == key
    case _ => false
  }

  lemma DirtyOnlyAfterDelay(cfg: Config, s: State, step: Step, key: string)
    requires Enabled(s, step) && Disciplined(s) && key in QueueAfter(cfg, s, step).dirty
    ensures (key in s.queue.dirty && !Takes(s, step, key)) || step == DelayOver(key)
  {
    if step.HandleNamespace? {
      EnqueueAllKeys(s.queue, CryptsForNamespace(cfg, step.homes, step.lists, step.name));
    }
  }

  lemma TakenWasDirty(s: State, step: Step, key: string)
    requires Disciplined(s) && Takes(s, step, key)
    ensures key in s.queue.dirty
  {
    TakeKeepsWellFormed(s.queue);
  }

  lemma DelayedIffEnqueued(cfg: Config, s: State, step: Step, key: string)
    requires Enabled(s, step)
    ensures key in QueueAfter(cfg, s, step).delayed
            <==> (key in s.queue.delayed && step != DelayOver(key)) || (Enqueues(cfg, s, step, key) && !s.queue.closed)
  {
    if step.HandleNamespace? {
      var enqueued := CryptsForNamespace(cfg, step.homes, step.lists, step.name);
      EnqueueAllKeys(s.queue, enqueued);
      assert key in (set c | c in enqueued :: KeyOf(c)) <==> exists c :: c in enqueued && KeyOf(c) == key;
    }
  }

  // --- Counting over runs --------------------------------------------------------------------------------

  function One(yes: bool): nat {
    if yes then 1 else 0
  }

  ghost function TimesTaken(states: seq<State>, steps: seq<Step>, n: nat, key: string): nat
    requires n <= |steps| < |states|
  {
    if n == 0 then 0
    else TimesTaken(states, steps, n - 1, key) + One(Takes(states[n - 1], steps[n - 1], key))
  }

  function TimesDelayed(steps: seq<Step>, n: nat, key: string): nat
    requires n <= |steps|
  {
    if n == 0 then 0 else TimesDelayed(steps, n - 1, key) + One(steps[n - 1] == DelayOver(key))
  }

  ghost function TimesEnqueued(cfg: Config, states: seq<State>, steps: seq<Step>, n: nat, key: string): nat
    requires n <= |steps| && IsRun(cfg, states, steps)
  {
    if n == 0 then 0
    else
      assert Next(cfg, states[n - 1], steps[n - 1], states[n - 1 + 1]);
      TimesEnqueued(cfg, states, steps, n - 1, key) + One(Enqueues(cfg, states[n - 1], steps[n - 1], key))
  }

  lemma TakenStep(cfg: Config, s: State, step: Step, after: State, key: string)
    requires Next(cfg, s, step, after) && Disciplined(s)
    ensures One(Takes(s, step, key)) + One(key in after.queue.dirty)
         <= One(key in s.queue.dirty) + One(step == DelayOver(key))
  {
    hide Enabled, Disciplined, QueueAfter;
    if key in after.queue.dirty {
      DirtyOnlyAfterDelay(cfg, s, step, key);
    }
    if Takes(s, step, key) {
      TakenWasDirty(s, step, key);
    }
  }

  /** Takings are paid for by delays, and a dirty key is one delay in hand. */
  lemma {:induction false} TakenForDelays(cfg: Config, states: seq<State>, steps: seq<Step>, n: nat, key: string)
    requires IsRun(cfg, states, steps) && Init(states[0]) && n <= |steps|
    ensures TimesTaken(states, steps, n, key) + One(key in states[n].queue.dirty) <= TimesDelayed(steps, n, key)
  {
    hide Next, Disciplined, Takes, One;
    if n == 0 {
      NoneIsZero();
    } else {
      TakenForDelays(cfg, states, steps, n - 1, key);
      InitDisciplined(states[0]);
      DisciplineRun(cfg, states, steps, n - 1);
      assert Next(cfg, states[n - 1], steps[n - 1], states[n - 1 + 1]);
      TakenStep(cfg, states[n - 1], steps[n - 1], states[n], key);
    }
  }

  lemma NoneIsZero()
    ensures One(false) == 0
  {
  }

  lemma DelayedStep(cfg: Config, s: State, step: Step, after: State, key: string)
    requires Next(cfg, s, step, after)
    ensures One(step == DelayOver(key)) + One(key in after.queue.delayed)
         <= One(key in s.queue.delayed) + One(Enqueues(cfg, s, step, key))
  {
    hide Enqueues, QueueAfter;
    DelayedIffEnqueued(cfg, s, step, key);
    if step == DelayOver(key) {
      DelayOverIsNoHandler(cfg, s, step, key);
    }
  }

  lemma DelayOverIsNoHandler(cfg: Config, s: State, step: Step, key: string)
    requires Enabled(s, step) && step.DelayOver?
    ensures !Enqueues(cfg, s, step, key)
  {
  }

  /** Delays are paid for by handlers, and a delayed key is one addition in hand. */
  lemma {:induction false} DelayedForAdditions(cfg: Config, states: seq<State>, steps: seq<Step>, n: nat, key: string)
    requires IsRun(cfg, states, steps) && Init(states[0]) && n <= |steps|
    ensures TimesDelayed(steps, n, key) + One(key in states[n].queue.delayed)
         <= TimesEnqueued(cfg, states, steps, n, key)
  {
    hide Enabled, Apply, Enqueues, One;
    if n == 0 {
      NoneIsZero();
    } else {
      DelayedForAdditions(cfg, states, steps, n - 1, key);
      assert Next(cfg, states[n - 1], steps[n - 1], states[n - 1 + 1]);
      DelayedStep(cfg, states[n - 1], steps[n - 1], states[n], key);
    }
  }

  // --- The same in numbers of steps ----------------------------------------------------------------------

  ghost function StepsThatTake(states: seq<State>, steps: seq<Step>, n: nat, key: string): set<nat>
    requires n <= |steps| < |states|
  {
    set m: nat | m < n && Takes(states[m], steps[m], key)
  }

  ghost function StepsThatEnqueue(cfg: Config, states: seq<State>, steps: seq<Step>, n: nat, key: string): set<nat>
    requires n <= |steps| < |states|
  {
    set m: nat | m < n && Enabled(states[m], steps[m]) && Enqueues(cfg, states[m], steps[m], key)
  }

  lemma {:induction false} TakingsCounted(states: seq<State>, steps: seq<Step>, n: nat, key: string)
    requires n <= |steps| < |states|
    ensures |StepsThatTake(states, steps, n, key)| == TimesTaken(states, steps, n, key)
  {
    hide Takes;
    if n > 0 {
      TakingsCounted(states, steps, n - 1, key);
      var earlier := StepsThatTake(states, steps, n - 1, key);
      assert StepsThatTake(states, steps, n, key)
          == if Takes(states[n - 1], steps[n - 1], key) then earlier + {n - 1} else earlier;
    }
  }

  lemma {:induction false} AdditionsCounted(cfg: Config, states: seq<State>, steps: seq<Step>, n: nat, key: string)
    requires n <= |steps| && IsRun(cfg, states, steps)
    ensures |StepsThatEnqueue(cfg, states, steps, n, key)| == TimesEnqueued(cfg, states, steps, n, key)
  {
    hide Enabled, Apply, Enqueues;
    if n > 0 {
      AdditionsCounted(cfg, states, steps, n - 1, key);
      assert Next(cfg, states[n - 1], steps[n - 1], states[n - 1 + 1]);
      var earlier := StepsThatEnqueue(cfg, states, steps, n - 1, key);
      assert StepsThatEnqueue(cfg, states, steps, n, key)
          == if Enqueues(cfg, states[n - 1], steps[n - 1], key) then earlier + {n - 1} else earlier;
    }
  }

  /**
   In every run each key is taken at most as often as a handler enqueued it: no sync without an addition of its own.
  */
  lemma NoSyncWithoutAddition(cfg: Config, states: seq<State>, steps: seq<Step>, n: nat, key: string)
    requires IsRun(cfg, states, steps) && Init(states[0]) && n <= |steps|
    ensures |set m: nat | m < n && Takes(states[m], steps[m], key)|
         <= |set m: nat | m < n && Enabled(states[m], steps[m]) && Enqueues(cfg, states[m], steps[m], key)|
  {
    TakenForDelays(cfg, states, steps, n, key);
    DelayedForAdditions(cfg, states, steps, n, key);
    TakingsCounted(states, steps, n, key);
    AdditionsCounted(cfg, states, steps, n, key);
    assert StepsThatTake(states, steps, n, key) == set m: nat | m < n && Takes(states[m], steps[m], key);
  }
}
