/** Queue discipline over every run of the step machine, whatever fails and whatever the environment does. */
module Discipline {
  import opened Common
  import opened WorkQueues
  import opened Reconcile
  import opened Handlers
  import opened Machine

  ghost function HeldKeys(workers: seq<Worker>): set<string> {
    set i | 0 <= i < |workers| && workers[i].Busy() :: workers[i].key
  }

  /** No two workers hold one key. */
  ghost predicate Exclusive(workers: seq<Worker>) {
    forall i, j :: 0 <= i < j < |workers| && workers[i].Busy() && workers[j].Busy() ==> workers[i].key != workers[j].key
  }

  /** The queue's books agree with what the workers hold. */
  ghost predicate Disciplined(s: State) {
    && WellFormed(s.queue)
    && Exclusive(s.workers)
    && s.queue.processing == HeldKeys(s.workers)
  }

  /** Busy before and after with the same key: the books do not change. */
  lemma SameHolder(workers: seq<Worker>, w: nat, worker: Worker)
    requires w < |workers| && workers[w].Busy() && worker.Busy() && worker.key == workers[w].key
    ensures HeldKeys(workers[w := worker]) == HeldKeys(workers)
    ensures Exclusive(workers) ==> Exclusive(workers[w := worker])
  {
    var after := workers[w := worker];
    assert forall i :: 0 <= i < |workers| ==> (after[i].Busy() <==> workers[i].Busy());
    assert forall i :: 0 <= i < |workers| && workers[i].Busy() ==> after[i].key == workers[i].key;
    forall k
      ensures k in HeldKeys(after) <==> k in HeldKeys(workers)
    {
      if k in HeldKeys(workers) {
        var i :| 0 <= i < |workers| && workers[i].Busy() && workers[i].key == k;
        assert after[i].Busy() && after[i].key == k;
      }
    }
  }

  lemma NewHolder(workers: seq<Worker>, w: nat, key: string)
    requires w < |workers| && !workers[w].Busy() && Exclusive(workers) && key !in HeldKeys(workers)
    ensures HeldKeys(workers[w := Taken(key)]) == HeldKeys(workers) + {key}
    ensures Exclusive(workers[w := Taken(key)])
  {
    var after := workers[w := Taken(key)];
    forall k
      ensures k in HeldKeys(after) <==> k in HeldKeys(workers) || k == key
    {
      if k in HeldKeys(workers) {
        var i :| 0 <= i < |workers| && workers[i].Busy() && workers[i].key == k;
        assert after[i].Busy() && after[i].key == k;
      }
      assert after[w].Busy() && after[w].key == key;
    }
  }

  lemma HolderGone(workers: seq<Worker>, w: nat, worker: Worker)
    requires w < |workers| && workers[w].Busy() && !worker.Busy() && Exclusive(workers)
    ensures HeldKeys(workers[w := worker]) == HeldKeys(workers) - {workers[w].key}
    ensures Exclusive(workers[w := worker])
  {
    var after := workers[w := worker];
    forall k
      ensures k in HeldKeys(after) <==> k in HeldKeys(workers) && k != workers[w].key
    {
      if k in HeldKeys(workers) && k != workers[w].key {
        var i :| 0 <= i < |workers| && workers[i].Busy() && workers[i].key == k;
        assert after[i].Busy() && after[i].key == k;
      }
    }
  }

  lemma StillIdle(workers: seq<Worker>, w: nat, worker: Worker)
    requires w < |workers| && !workers[w].Busy() && !worker.Busy()
    ensures HeldKeys(workers[w := worker]) == HeldKeys(workers)
    ensures Exclusive(workers) ==> Exclusive(workers[w := worker])
  {
    var after := workers[w := worker];
    forall k
      ensures k in HeldKeys(after) <==> k in HeldKeys(workers)
    {
      if k in HeldKeys(workers) {
        var i :| 0 <= i < |workers| && workers[i].Busy() && workers[i].key == k;
        assert after[i].Busy() && after[i].key == k;
      }
    }
  }

  /** What a step that belongs to no worker does to the queue. */
  ghost predicate OnlyAdded(before: Queue<string>, after: Queue<string>) {
    && WellFormed(after)
    && after.processing == before.processing
    && before.dirty <= after.dirty
    && forall k :: k in before.delayed && !before.closed ==> k in after.delayed || k in after.dirty
  }

  lemma NamespaceOnlyAdds(cfg: Config, s: State, step: Step)
    requires Enabled(s, step) && step.HandleNamespace? && WellFormed(s.queue)
    ensures OnlyAdded(s.queue, QueueAfter(cfg, s, step))
  {
    EnqueueAllKeys(s.queue, CryptsForNamespace(cfg, step.homes, step.lists, step.name));
  }

  lemma DelayOnlyAdds(cfg: Config, s: State, step: Step)
    requires Enabled(s, step) && step.DelayOver? && WellFormed(s.queue)
    ensures OnlyAdded(s.queue, QueueAfter(cfg, s, step))
  {
    FireKeepsWellFormed(s.queue, step.key);
  }

  lemma OutsideQueue(cfg: Config, s: State, step: Step)
    requires Enabled(s, step) && !IsWorkerStep(step) && WellFormed(s.queue)
    ensures WorkersAfter(cfg, s, step) == s.workers
    ensures OnlyAdded(s.queue, QueueAfter(cfg, s, step))
  {
    hide ShowsCaches;
    if step.HandleNamespace? {
      NamespaceOnlyAdds(cfg, s, step);
    } else if step.DelayOver? {
      DelayOnlyAdds(cfg, s, step);
    }
  }

  lemma DisciplineStep(cfg: Config, s: State, step: Step)
    requires Disciplined(s) && Enabled(s, step)
    ensures Disciplined(Apply(cfg, s, step))
  {
    if !IsWorkerStep(step) {
      OutsideQueue(cfg, s, step);
    } else {
      var after := Apply(cfg, s, step);
      assert after.workers == s.workers[step.w := after.workers[step.w]];
      if step.TakeKey? {
        TakeKeepsWellFormed(s.queue);
        NewHolder(s.workers, step.w, s.queue.waiting[0]);
      } else if step.Exit? {
        StillIdle(s.workers, step.w, Exited);
      } else if step.Release? {
        assert s.workers[step.w].key in HeldKeys(s.workers);
        DoneKeepsWellFormed(s.queue, s.workers[step.w].key);
        HolderGone(s.workers, step.w, Idle);
      } else {
        SameHolder(s.workers, step.w, after.workers[step.w]);
      }
    }
  }

  lemma InitDisciplined(s: State)
    requires Init(s)
    ensures Disciplined(s)
  {
  }

  /** In every state of every run no key is held twice and the queue's books are right. */
  lemma {:induction false} DisciplineRun(cfg: Config, states: seq<State>, steps: seq<Step>, i: nat)
    requires IsRun(cfg, states, steps) && Disciplined(states[0]) && i < |states|
    ensures Disciplined(states[i])
  {
    hide Enabled, Apply, Disciplined;
    if i > 0 {
      DisciplineRun(cfg, states, steps, i - 1);
      assert Next(cfg, states[i - 1], steps[i - 1], states[i - 1 + 1]);
      DisciplineStep(cfg, states[i - 1], steps[i - 1]);
    }
  }

  // --- Keys are kept until released, and released once ------------------------------------------------

  /** The worker's own release frees its key for good, and requeues it exactly if it was marked dirty meanwhile. */
  lemma ReleaseFrees(cfg: Config, s: State, w: nat)
    requires Disciplined(s) && Enabled(s, Release(w))
    ensures var after, key := Apply(cfg, s, Release(w)), s.workers[w].key;
            && after.workers[w] == Idle && key !in after.queue.processing
            && (key in s.queue.dirty <==> key in after.queue.waiting)
  {
    assert s.workers[w].key in HeldKeys(s.workers);
    DoneKeepsWellFormed(s.queue, s.workers[w].key);
  }

  /** Through every other step a busy worker stays busy with its key. */
  lemma KeepsKey(cfg: Config, s: State, step: Step, w: nat)
    requires Enabled(s, step) && w < |s.workers| && s.workers[w].Busy() && step != Release(w)
    ensures w < |WorkersAfter(cfg, s, step)|
    ensures WorkersAfter(cfg, s, step)[w].Busy() && WorkersAfter(cfg, s, step)[w].key == s.workers[w].key
  {
  }

  /** A worker holds the key it took through every step but its own release, which frees it. */
  lemma HeldUntilReleased(cfg: Config, s: State, step: Step, w: nat)
    requires Disciplined(s) && Enabled(s, step) && w < |s.workers| && s.workers[w].Busy()
    ensures var after, key := Apply(cfg, s, step), s.workers[w].key;
            && w < |after.workers|
            && (step == Release(w) ==> after.workers[w] == Idle && key !in after.queue.processing
                                       && (key in s.queue.dirty <==> key in after.queue.waiting))
            && (step != Release(w) ==>
                  after.workers[w].Busy() && after.workers[w].key == key && key in after.queue.processing)
  {
    hide Enabled;
    DisciplineStep(cfg, s, step);
    if step == Release(w) {
      ReleaseFrees(cfg, s, w);
    } else {
      KeepsKey(cfg, s, step, w);
      assert s.workers[w].key in HeldKeys(Apply(cfg, s, step).workers);
    }
  }

  /** A worker leaves its loop only from a closed and empty queue, and never comes back. */
  lemma ExitOnlyOnShutdown(cfg: Config, s: State, step: Step, w: nat)
    requires Enabled(s, step) && w < |s.workers|
    ensures var after := Apply(cfg, s, step);
            && |after.workers| == |s.workers|
            && (after.workers[w].Exited?
                <==> s.workers[w].Exited? || (step == Exit(w) && s.queue.closed && s.queue.waiting == []))
  {
    if !IsWorkerStep(step) {
      assert Apply(cfg, s, step).workers == s.workers;
    }
  }

  lemma OnlyCloseCloses(cfg: Config, s: State, step: Step)
    requires Enabled(s, step) && Apply(cfg, s, step).queue.closed
    ensures s.queue.closed || step.CloseQueue?
  {
    if step.HandleNamespace? {
      EnqueueAllKeys(s.queue, CryptsForNamespace(cfg, step.homes, step.lists, step.name));
    }
  }

  /** Some step before `i` closed the queue. */
  ghost predicate ClosedBefore(steps: seq<Step>, i: nat)
    requires i <= |steps|
  {
    exists c :: 0 <= c < i && steps[c].CloseQueue?
  }

  lemma {:induction false} ClosedMeansShutdown(cfg: Config, states: seq<State>, steps: seq<Step>, i: nat)
    requires IsRun(cfg, states, steps) && Init(states[0]) && i < |states| && states[i].queue.closed
    ensures ClosedBefore(steps, i)
  {
    hide Enabled, Apply;
    if i > 0 {
      assert Next(cfg, states[i - 1], steps[i - 1], states[i - 1 + 1]);
      OnlyCloseCloses(cfg, states[i - 1], steps[i - 1]);
      if states[i - 1].queue.closed {
        ClosedMeansShutdown(cfg, states, steps, i - 1);
      }
    }
  }

  /** The worker left at some time before `i`, when nothing waited and the queue had been closed. */
  ghost predicate LeftBefore(states: seq<State>, steps: seq<Step>, w: nat, i: nat)
    requires i <= |steps| < |states|
  {
    exists m :: 0 <= m < i && steps[m] == Exit(w) && states[m].queue.waiting == [] && ClosedBefore(steps, m)
  }

  /** In every run a worker has left its loop exactly if it once found the queue empty after a shutdown. */
  lemma {:induction false} ExitedMeansShutdown(cfg: Config, states: seq<State>, steps: seq<Step>, w: nat, i: nat)
    requires IsRun(cfg, states, steps) && Init(states[0]) && i < |states| && w < |states[0].workers|
    ensures |states[i].workers| == |states[0].workers|
    ensures states[i].workers[w].Exited? <==> LeftBefore(states, steps, w, i)
  {
    hide Enabled, Apply;
    if i > 0 {
      var m := i - 1;
      ExitedMeansShutdown(cfg, states, steps, w, m);
      assert Next(cfg, states[m], steps[m], states[m + 1]);
      ExitOnlyOnShutdown(cfg, states[m], steps[m], w);
      if steps[m] == Exit(w) {
        ExitNeedsShutdown(states[m], w);
        ClosedMeansShutdown(cfg, states, steps, m);
      }
    }
  }

  lemma ExitNeedsShutdown(s: State, w: nat)
    requires Enabled(s, Exit(w))
    ensures s.queue.closed && s.queue.waiting == []
  {
  }

  // --- Notices persist --------------------------------------------------------------------------------

  /** The key is on its way to a worker: delayed, waiting, or marked for another round. */
  ghost predicate Noticed(s: State, key: string) {
    key in s.queue.delayed || key in s.queue.dirty
  }

  ghost predicate Takes(s: State, step: Step, key: string) {
    step.TakeKey? && s.queue.waiting != [] && s.queue.waiting[0] == key
  }

  lemma NoticePersists(cfg: Config, s: State, step: Step, key: string)
    requires Disciplined(s) && Enabled(s, step) && !s.queue.closed
    requires Noticed(s, key) && !Takes(s, step, key)
    ensures Noticed(Apply(cfg, s, step), key)
  {
    if !IsWorkerStep(step) {
      OutsideQueue(cfg, s, step);
    }
  }

  /** Some worker takes the key in a step from `i` to before `j`. */
  ghost predicate TakenBetween(states: seq<State>, steps: seq<Step>, key: string, i: nat, j: nat)
    requires i <= j <= |steps| && |states| == |steps| + 1
  {
    exists m :: i <= m < j && Takes(states[m], steps[m], key)
  }

  lemma TakenGrows(states: seq<State>, steps: seq<Step>, key: string, i: nat, j: nat)
    requires i < j <= |steps| && |states| == |steps| + 1
    ensures TakenBetween(states, steps, key, i, j)
            <==> TakenBetween(states, steps, key, i, j - 1) || Takes(states[j - 1], steps[j - 1], key)
  {
    hide Takes;
  }

  lemma NoticeStep(cfg: Config, s: State, step: Step, after: State, key: string)
    requires Next(cfg, s, step, after) && Disciplined(s) && !s.queue.closed && Noticed(s, key)
    ensures Noticed(after, key) || Takes(s, step, key)
  {
    if !Takes(s, step, key) {
      NoticePersists(cfg, s, step, key);
    }
  }

  /** A noticed key stays noticed until some worker takes it: additions during its own processing included. */
  lemma {:induction false} NoticedUntilTaken(cfg: Config, states: seq<State>, steps: seq<Step>, key: string, i: nat,
                                             j: nat)
    requires IsRun(cfg, states, steps) && Disciplined(states[0]) && i <= j < |states|
    requires Noticed(states[i], key)
    requires forall m :: i <= m < j ==> !states[m].queue.closed
    ensures Noticed(states[j], key) || TakenBetween(states, steps, key, i, j)
  {
    hide Next, Noticed, Takes, TakenBetween, Disciplined;
    if i < j {
      NoticedUntilTaken(cfg, states, steps, key, i, j - 1);
      TakenGrows(states, steps, key, i, j);
      DisciplineRun(cfg, states, steps, j - 1);
      assert Next(cfg, states[j - 1], steps[j - 1], states[j - 1 + 1]);
      if Noticed(states[j - 1], key) {
        NoticeStep(cfg, states[j - 1], steps[j - 1], states[j], key);
      }
    }
  }

  // --- No worker gets stuck ---------------------------------------------------------------------------

  function Phase(worker: Worker): nat {
    match worker
    case Taken(_) => 4
    case Matching(_, _, _, _, _) => 3
    case Finished(_) => 1
    case Idle => 0
    case Exited => 0
    case _ => 2
  }

  function Remaining(worker: Worker): nat {
    if worker.Matching? then |worker.patterns| else if worker.Running? || worker.Writing() then |worker.todo| else 0
  }

  function Stage(worker: Worker): nat {
    if worker.Running? then 2 else if worker.Fetched? then 1 else 0
  }

  /** A step of a busy worker always brings its release nearer, whichever way calls turn out. */
  lemma WorkerStepsDescend(cfg: Config, s: State, step: Step)
    requires IsWorkerStep(step) && Enabled(s, step) && s.workers[step.w].Busy()
    ensures var before, after := s.workers[step.w], Apply(cfg, s, step).workers[step.w];
            || Phase(after) < Phase(before)
            || (Phase(after) == Phase(before) && Remaining(after) < Remaining(before))
            || (Phase(after) == Phase(before) && Remaining(after) == Remaining(before) && Stage(after) < Stage(before))
  {
  }

  lemma {:induction false} SomeListing<T>(members: set<T>) returns (listing: seq<T>)
    ensures IsListing(listing, members)
  {
    if members == {} {
      listing := [];
    } else {
      var x :| x in members;
      var rest := SomeListing(members - {x});
      ListingGrows(rest, members - {x}, x);
      listing := rest + [x];
      assert members - {x} + {x} == members;
    }
  }

  /** Until a busy worker can release its key it can take another step of its own. */
  lemma BusyWorkerCanStep(s: State, w: nat) returns (step: Step)
    requires w < |s.workers| && s.workers[w].Busy()
    ensures IsWorkerStep(step) && step.w == w && Enabled(s, step)
    ensures step.FetchData? || step.Create? || step.Update? ==> !step.fault
    ensures s.workers[w].Finished? || (s.workers[w].Running? && s.workers[w].todo == []) ==> step == Release(w)
    requires (s.workers[w].Writing()) ==> s.workers[w].todo != []
  {
    match s.workers[w]
    case Taken(_) => step := ReadCrypt(w);
    case Matching(_, _, _, patterns, _) =>
      if patterns == [] {
        step := Plan(w);
      } else {
        var listing := SomeListing(s.namespaces);
        step := MatchPattern(w, listing);
      }
    case Running(_, _, _, todo) => step := if todo == [] then Release(w) else FetchData(w, false);
    case Fetched(_, _, _, _, _, _) => step := Create(w, false);
    case Conflicted(_, _, _, _, _, _) => step := Update(w, false);
    case Finished(_) => step := Release(w);
  }

  lemma RunGrows(cfg: Config, s: State, step: Step, states: seq<State>, steps: seq<Step>)
    requires Enabled(s, step) && IsRun(cfg, states, steps) && states[0] == Apply(cfg, s, step)
    ensures IsRun(cfg, [s] + states, [step] + steps)
  {
    hide Apply, Enabled;
    var longer, longerSteps := [s] + states, [step] + steps;
    forall i | 0 <= i < |longerSteps|
      ensures Next(cfg, longer[i], longerSteps[i], longer[i + 1])
    {
      if i > 0 {
        assert Next(cfg, states[i - 1], steps[i - 1], states[i - 1 + 1]);
      }
    }
  }

  /** From every state a worker that is left to run alone reaches the release of its key. */
  lemma {:induction false} WorkerReachesRelease(cfg: Config, s: State, w: nat)
    returns (states: seq<State>, steps: seq<Step>)
    requires w < |s.workers| && s.workers[w].Busy()
    requires s.workers[w].Writing() ==> s.workers[w].todo != []
    ensures IsRun(cfg, states, steps) && states[0] == s
    ensures forall i :: 0 <= i < |steps| ==> IsWorkerStep(steps[i]) && steps[i].w == w
    ensures steps != [] && steps[|steps| - 1] == Release(w)
    ensures forall i :: 0 <= i < |steps| - 1 ==> steps[i] != Release(w)
    decreases Phase(s.workers[w]), Remaining(s.workers[w]), Stage(s.workers[w])
  {
    var step := BusyWorkerCanStep(s, w);
    var after := Apply(cfg, s, step);
    if step == Release(w) {
      states, steps := [s, after], [step];
    } else {
      WorkerStepsDescend(cfg, s, step);
      var moreStates, moreSteps := WorkerReachesRelease(cfg, after, w);
      states, steps := [s] + moreStates, [step] + moreSteps;
      RunGrows(cfg, s, step, moreStates, moreSteps);
    }
  }
}
