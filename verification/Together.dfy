/**
 What the separate theorems come to together. From every state a controller with workers can run on to rest; under the
 global rules it can always finish with everything in place; left alone in a quiet environment it ends with every
 scheduled crypt's secrets as wanted; and an ordinary crypt is one the rules allow.
 */
module Together {
  import opened Common
  import opened Resources
  import opened QueueKeys
  import opened Reconcile
  import opened Machine
  import opened Discipline
  import opened WakeUp
  import opened Ownership
  import opened GlobalRules
  import opened Rest
  import opened Convergence
  import opened Counterexamples

  // --- A run to rest exists ------------------------------------------------------------------------------

  /** The same step, except that a write fails if and only if the API refuses it. */
  function Heeding(cfg: Config, s: State, step: Step): Step {
    match step
    case Create(w, _) => if w < |s.workers|
        && s.workers[w].Writing() then Create(w, cfg.denies(s.workers[w].secret)) else step
    case Update(w, _) => if w < |s.workers|
        && s.workers[w].Writing() then Update(w, cfg.denies(s.workers[w].secret)) else step
    case _ => step
  }

  lemma HeedingIsQuiet(cfg: Config, s: State, step: Step)
    requires Enabled(s, step) && IsInternal(step) && Faultless(s, step)
    ensures var heeding := Heeding(cfg, s, step);
            Enabled(s, heeding) && IsInternal(heeding) && Quiet(cfg, s, heeding)
  {
  }

  /** A step of the controller; `heed` decides whether refused writes fail or no call fails at all. */
  ghost predicate OwnNext(cfg: Config, heed: bool, s: State, step: Step, after: State) {
    Next(cfg, s, step, after) && IsInternal(step) && if heed then Quiet(cfg, s, step) else Faultless(s, step)
  }

  /** A run of the controller alone. */
  ghost predicate IsOwnRun(cfg: Config, heed: bool, states: seq<State>, steps: seq<Step>) {
    && |states| == |steps| + 1
    && forall m :: 0 <= m < |steps| ==> OwnNext(cfg, heed, states[m], steps[m], states[m + 1])
  }

  lemma OwnRunIsRun(cfg: Config, heed: bool, states: seq<State>, steps: seq<Step>)
    requires IsOwnRun(cfg, heed, states, steps)
    ensures IsRun(cfg, states, steps) && forall m :: 0 <= m < |steps| ==> IsInternal(steps[m])
  {
    hide Next, Quiet, Faultless;
    forall m | 0 <= m < |steps|
      ensures Next(cfg, states[m], steps[m], states[m + 1]) && IsInternal(steps[m])
    {
      assert OwnNext(cfg, heed, states[m], steps[m], states[m + 1]);
    }
  }

  lemma OwnStep(cfg: Config, heed: bool, s: State) returns (step: Step)
    requires Manned(s) && !AtRest(s)
    ensures IsInternal(step) && Enabled(s, step)
    ensures if heed then Quiet(cfg, s, step) else Faultless(s, step)
  {
    step := CanStep(s);
    if heed {
      HeedingIsQuiet(cfg, s, step);
      step := Heeding(cfg, s, step);
    }
  }

  lemma {:induction false} OwnRunToRest(cfg: Config, heed: bool, s: State) returns (states: seq<State>,
                                        steps: seq<Step>)
    requires Disciplined(s) && Manned(s)
    ensures IsOwnRun(cfg, heed, states, steps) && states[0] == s && AtRest(states[|steps|])
    decreases LeftIn(s).events, LeftIn(s).delayed, LeftIn(s).dirty, LeftIn(s).phase,
              LeftIn(s).remaining, LeftIn(s).stage, LeftIn(s).alive
  {
    hide Enabled, Apply, AtRest, Disciplined, Manned, LeftIn, Quiet, Faultless;
    states, steps := [s], [];
    if !AtRest(s) {
      var step := OwnStep(cfg, heed, s);
      var after := Apply(cfg, s, step);
      DisciplineStep(cfg, s, step);
      MannedStep(cfg, s, step);
      InternalStepDescends(cfg, s, step);
      var rest, restSteps := OwnRunToRest(cfg, heed, after);
      states, steps := [s] + rest, [step] + restSteps;
      forall m | 0 <= m < |steps|
        ensures OwnNext(cfg, heed, states[m], steps[m], states[m + 1])
      {
        if m > 0 {
          assert OwnNext(cfg, heed, rest[m - 1], restSteps[m - 1], rest[m - 1 + 1]);
        }
      }
    }
  }

  /** So every state has a future in which the controller is left alone. */
  lemma CanBeLeftAlone(cfg: Config, s: State) returns (run: nat -> State, choice: nat -> Step)
    requires Disciplined(s) && Manned(s)
    ensures run(0) == s && LeftAlone(cfg, run, choice, 0)
  {
    hide Next, AtRest, Disciplined, Manned, Faultless, OwnNext;
    var states, steps := OwnRunToRest(cfg, false, s);
    OwnRunIsRun(cfg, false, states, steps);
    run := (n: nat) => if n < |states| then states[n] else states[|states| - 1];
    choice := (n: nat) => if n < |steps| then steps[n] else CloseQueue;
    forall m: nat | !AtRest(run(m))
      ensures IsInternal(choice(m)) && Next(cfg, run(m), choice(m), run(m + 1))
    {
      assert m < |steps|;
      assert Next(cfg, states[m], steps[m], states[m + 1]);
    }
  }

  // --- Under the rules it can always finish --------------------------------------------------------------

  /** The rules bind the environment: they never forbid the controller an undisturbed step, nor anybody these. */
  lemma RulesLeaveFree(cfg: Config, rules: Rules, s: State, step: Step)
    requires (IsInternal(step) && Faultless(s, step))
             || step.CryptRemoved? || step.Resync? || step.NamespaceCached? || step.SecretDeleted? || step.CloseQueue?
    ensures Ruled(cfg, rules, s, step)
  {
  }

  lemma RunsJoin(cfg: Config, a: seq<State>, aSteps: seq<Step>, b: seq<State>, bSteps: seq<Step>)
    requires IsRun(cfg, a, aSteps) && IsRun(cfg, b, bSteps) && b[0] == a[|aSteps|]
    ensures IsRun(cfg, a + b[1..], aSteps + bSteps)
  {
    hide Next;
    var states, steps := a + b[1..], aSteps + bSteps;
    forall i | 0 <= i < |steps|
      ensures Next(cfg, states[i], steps[i], states[i + 1])
    {
      if i < |aSteps| {
        assert Next(cfg, a[i], aSteps[i], a[i + 1]);
      } else {
        var j := i - |aSteps|;
        assert states[i] == b[j] && states[i + 1] == b[j + 1];
        assert Next(cfg, b[j], bSteps[j], b[j + 1]);
      }
    }
  }

  lemma {:induction false} OwnRunKeepsCaches(cfg: Config, states: seq<State>, steps: seq<Step>, n: nat)
    requires IsRun(cfg, states, steps) && n <= |steps|
    requires forall m :: 0 <= m < |steps| ==> IsInternal(steps[m])
    ensures states[n].crypts == states[0].crypts && states[n].namespaces == states[0].namespaces
    ensures states[n].queue.closed ==> states[0].queue.closed
  {
    hide Enabled, CryptsAfter, NamespacesAfter, QueueAfter;
    if n > 0 {
      OwnRunKeepsCaches(cfg, states, steps, n - 1);
      assert Next(cfg, states[n - 1], steps[n - 1], states[n - 1 + 1]);
      InternalKeepsCaches(cfg, states[n - 1], steps[n - 1]);
      if !states[n - 1].queue.closed {
        OpenStaysOpen(cfg, states[n - 1], steps[n - 1]);
      }
    }
  }

  /**
   Whatever has happened in a run under the rules, it goes on, under the rules, to a state with everything in place.
  */
  lemma RuledRunCanFinish(cfg: Config, rules: Rules, states: seq<State>, steps: seq<Step>)
    returns (more: seq<State>, moreSteps: seq<Step>)
    requires IsRuledRun(cfg, rules, states, steps) && RuledInit(rules, states[0]) && states[0].workers != []
    requires !states[|steps|].queue.closed
    ensures IsRuledRun(cfg, rules, states + more, steps + moreSteps)
    ensures var last := (states + more)[|steps + moreSteps|];
            && Drained(last) && Complete(cfg, last)
            && last.crypts == states[|steps|].crypts && last.namespaces == states[|steps|].namespaces
  {
    hide Next, Init, Manned, AtRest, WakeInvariant, Ruled, Faultless, Drained, Complete;
    var n := |steps|;
    MannedRun(cfg, states, steps, n);
    InitDisciplined(states[0]);
    DisciplineRun(cfg, states, steps, n);
    var own, ownSteps := OwnRunToRest(cfg, false, states[n]);
    OwnRunIsRun(cfg, false, own, ownSteps);
    RunsJoin(cfg, states, steps, own, ownSteps);
    more, moreSteps := own[1..], ownSteps;
    forall m | 0 <= m < |steps + moreSteps|
      ensures Ruled(cfg, rules, (states + more)[m], (steps + moreSteps)[m])
    {
      if m >= n {
        assert (states + more)[m] == own[m - n];
        assert OwnNext(cfg, false, own[m - n], ownSteps[m - n], own[m - n + 1]);
        RulesLeaveFree(cfg, rules, own[m - n], ownSteps[m - n]);
      }
    }
    OwnRunKeepsCaches(cfg, own, ownSteps, |ownSteps|);
    assert (states + more)[|steps + moreSteps|] == own[|ownSteps|];
    assert (states + more)[0] == states[0];
    RulesLoseNoWakeUp(cfg, rules, states + more, steps + moreSteps, |steps + moreSteps|);
    RestIsComplete(cfg, own[|ownSteps|]);
  }

  // --- Left alone and undisturbed it converges -----------------------------------------------------------

  ghost predicate StaysQuiet(cfg: Config, run: nat -> State, choice: nat -> Step) {
    forall m: nat :: Enabled(run(m), choice(m)) && !AtRest(run(m)) ==> Quiet(cfg, run(m), choice(m))
  }

  /** The beginning of a left-alone run, as a quiet run. */
  lemma QuietPrefix(cfg: Config, run: nat -> State, choice: nat -> Step, n: nat)
    returns (states: seq<State>, steps: seq<Step>)
    requires LeftAlone(cfg, run, choice, 0) && StaysQuiet(cfg, run, choice)
    requires ValidCache(run(0).crypts) && Disciplined(run(0)) && Disjoint(cfg, run(0)) && AllIdle(run(0))
    requires forall m: nat :: m < n ==> !AtRest(run(m))
    ensures IsQuietRun(cfg, states, steps) && |steps| == n && |states| == n + 1
    ensures forall m :: 0 <= m <= n ==> states[m] == run(m)
    ensures forall m :: 0 <= m < n ==> steps[m] == choice(m)
  {
    hide Enabled, Apply, AtRest, Quiet, Disciplined, Disjoint, ValidCache;
    states, steps := seq(n + 1, i requires 0 <= i => run(i)), seq(n, i requires 0 <= i => choice(i));
    forall i | 0 <= i < |steps|
      ensures QuietNext(cfg, states[i], steps[i], states[i + 1])
    {
      assert Next(cfg, run(i), choice(i), run(i + 1));
    }
  }

  lemma {:induction false} TakenIsRemembered(states: seq<State>, steps: seq<Step>, n: nat, t: nat, key: string)
    requires t < n <= |steps| < |states| && Takes(states[t], steps[t], key)
    ensures key in TakenKeys(states, steps, n)
  {
    if t < n - 1 {
      TakenIsRemembered(states, steps, n - 1, t, key);
    }
  }

  /**
   Left alone in a quiet environment that wants no identity twice, the controller comes to rest with every secret that
   a scheduled crypt wants exactly as wanted, however its workers interleave.
   */
  lemma ConvergesInTheEnd(cfg: Config, run: nat -> State, choice: nat -> Step, key: string, id: SecretId)
    returns (n: nat)
    requires LeftAlone(cfg, run, choice, 0) && StaysQuiet(cfg, run, choice)
    requires ValidCache(run(0).crypts) && Disciplined(run(0)) && Disjoint(cfg, run(0)) && AllIdle(run(0))
    requires Scheduled(run(0), key) && DesiredBy(cfg, run(0), key, id).Some?
    ensures AtRest(run(n)) && Find(run(n).secrets, id) == DesiredBy(cfg, run(0), key, id)
  {
    hide Quiet, Disjoint, ValidCache, Scheduled, DesiredBy, TakenKeys, StaysQuiet, LeftAlone, IsQuietRun;
    var t := ScheduledIsTaken(cfg, run, choice, 0, key);
    n := ComesToRest(cfg, run, choice, 0);
    assert t < n;
    var states, steps := QuietPrefix(cfg, run, choice, n);
    TakenIsRemembered(states, steps, n, t, key);
    Converges(cfg, states, steps, n, key, id);
    assert HeldKeys(run(n).workers) == {};
    QuietRunIsDisciplined(cfg, states, steps, n);
  }

  lemma QuietRunIsDisciplined(cfg: Config, states: seq<State>, steps: seq<Step>, n: nat)
    requires IsQuietRun(cfg, states, steps) && n <= |steps|
    ensures Disciplined(states[n])
  {
    hide Disciplined;
    QuietRunInProgress(cfg, states, steps, n);
  }

  /** The rules give the disjointness that convergence asks for. */
  lemma OwnedIsDisjoint(cfg: Config, owner: Owners, s: State)
    requires Owned(cfg, owner, s)
    ensures Disjoint(cfg, s)
  {
    forall k, l, id | DesiredBy(cfg, s, k, id).Some? && DesiredBy(cfg, s, l, id).Some?
      ensures k == l
    {
      LastGoodIsLast(cfg, s.store, s.crypts[k], s.crypts[k].secrets, id);
      LastGoodIsLast(cfg, s.store, s.crypts[l], s.crypts[l].secrets, id);
      TargetsAreUnshared(cfg, owner, s, k, l, id);
    }
  }

  // --- An ordinary case ----------------------------------------------------------------------------------

  /** One crypt `home/a` that wants the secret `db` in the namespace `prod`. */
  ghost function OrdinaryRules(): Rules {
    Rules(id => if id == DB then Some(CryptId("home", "a")) else None, name => "home", (home, ns) => "a", {"prod/db"})
  }

  lemma OrdinaryCryptIsLawful()
    ensures Lawful(Plain(), OrdinaryRules(), Asks("home", "a", ["prod"]))
  {
    var a := Asks("home", "a", ["prod"]);
    forall id | Targets(Plain(), a, id)
      ensures id == DB
    {
    }
  }

  lemma NamespaceStep(s: State, name: string)
    requires name !in s.namespaces
    ensures Enabled(s, NamespaceCached(name))
    ensures Apply(Plain(), s, NamespaceCached(name))
         == s.(namespaces := s.namespaces + {name},
               events := s.events + multiset{NamespaceEvent(name)}, clock := s.clock + 1)
  {
  }

  lemma CryptStep(s: State, crypt: Crypt)
    requires WellNamed(crypt)
    ensures Enabled(s, CryptCached(crypt))
    ensures Apply(Plain(), s, CryptCached(crypt))
         == s.(crypts := s.crypts[KeyOf(crypt) := crypt],
               events := s.events + multiset{CryptEvent(crypt)}, clock := s.clock + 1)
  {
  }

  /** The environment's part: both namespaces and the crypt are cached. */
  lemma OrdinaryStart(a: Crypt) returns (states: seq<State>, steps: seq<Step>)
    requires a == Asks("home", "a", ["prod"])
    ensures IsRuledRun(Plain(), OrdinaryRules(), states, steps) && RuledInit(OrdinaryRules(), states[0])
    ensures states[0].secrets == map[] && states[0].workers != []
    ensures var last := states[|steps|];
            last.crypts == map[KeyOf(a) := a] && last.namespaces == {"home", "prod"} && !last.queue.closed
  {
    hide Enabled, Apply, Lawful, KeyOf;
    var s0 := Start(map[]).(store := Stocked());
    NamespaceStep(s0, "home");
    var s1 := Apply(Plain(), s0, NamespaceCached("home"));
    NamespaceStep(s1, "prod");
    var s2 := Apply(Plain(), s1, NamespaceCached("prod"));
    CryptStep(s2, a);
    var s3 := Apply(Plain(), s2, CryptCached(a));
    OrdinaryCryptIsLawful();
    states, steps := [s0, s1, s2, s3], [NamespaceCached("home"), NamespaceCached("prod"), CryptCached(a)];
    forall m | 0 <= m < |steps|
      ensures Next(Plain(), states[m], steps[m], states[m + 1]) && Ruled(Plain(), OrdinaryRules(), states[m], steps[m])
    {
      assert m == 0 || m == 1 || m == 2;
    }
  }

  /** From an empty start with the store stocked, a run under the rules in which the crypt's secret comes into being. */
  lemma OrdinaryRun() returns (states: seq<State>, steps: seq<Step>)
    ensures IsRuledRun(Plain(), OrdinaryRules(), states, steps) && RuledInit(OrdinaryRules(), states[0])
    ensures states[0].secrets == map[]
    ensures var last, a := states[|steps|], Asks("home", "a", ["prod"]);
            && Drained(last) && last.crypts == map[KeyOf(a) := a]
            && DB in last.secrets && ControlledBy(last.secrets[DB], "a")
  {
    hide Next, Ruled, Complete, Drained, ControlledBy, RuledInit, KeyOf, Init;
    var a := Asks("home", "a", ["prod"]);
    states, steps := OrdinaryStart(a);
    var more, moreSteps := RuledRunCanFinish(Plain(), OrdinaryRules(), states, steps);
    assert (states + more)[0] == states[0];
    states, steps := states + more, steps + moreSteps;
    OrdinaryEnd(states, steps, a);
  }

  lemma OrdinaryEnd(states: seq<State>, steps: seq<Step>, a: Crypt)
    requires IsRuledRun(Plain(), OrdinaryRules(), states, steps) && RuledInit(OrdinaryRules(), states[0])
    requires var last := states[|steps|];
             Drained(last) && Complete(Plain(), last) && KeyOf(a) in last.crypts && last.crypts[KeyOf(a)] == a
             && "prod" in last.namespaces
    requires a == Asks("home", "a", ["prod"])
    ensures var last := states[|steps|];
            DB in last.secrets && ControlledBy(last.secrets[DB], "a")
  {
    hide Lawful, Ruled, Next;
    var last := states[|steps|];
    WantsDb(last, KeyOf(a));
    OrderlyRun(Plain(), OrdinaryRules(), states, steps, |steps|);
    RulesLoseNoWakeUp(Plain(), OrdinaryRules(), states, steps, |steps|);
    DrainedIsControlled(Plain(), OrdinaryRules().owner, last, KeyOf(a), DB);
  }
}
