/**
 Rules for the surroundings of a controller, each checked once where it applies, under which every step of a run keeps
 the promises of the wake-up theorem.
 */
module GlobalRules {
  import opened Resources
  import opened QueueKeys
  import opened Reconcile
  import opened Handlers
  import opened Machine
  import opened WakeUp
  import opened Ownership

  datatype Rules = Rules(
    owner: Owners,
    home: string -> string,               // the one namespace in which a crypt of a name lives
    selects: (string, string) -> string,  // the one name in a home whose crypt may select a namespace
    keys: set<string>)                    // the store keys in use

  ghost predicate UsesKeys(rules: Rules, defs: seq<SecretDefinition>) {
    forall d :: d in defs ==> d.key in rules.keys
  }

  /** Targets are unshared, names unique, each namespace selected by one crypt of a home, and store keys known. */
  ghost predicate Lawful(cfg: Config, rules: Rules, crypt: Crypt) {
    && OwnsTargets(cfg, rules.owner, crypt)
    && crypt.namespace == rules.home(crypt.name)
    && (forall ns :: SelectsNamespace(cfg, crypt, ns) ==> crypt.name == rules.selects(crypt.namespace, ns))
    && UsesKeys(rules, crypt.secrets)
  }

  /**
   A namespace is cached before its crypts and outlives them there, the store keeps the keys in use, the API lists the
   namespace of every cached crypt, nobody else takes a secret over, and no call is broken.
   */
  ghost predicate Ruled(cfg: Config, rules: Rules, s: State, step: Step) {
    match step
    case CryptCached(crypt) => Lawful(cfg, rules, crypt) && crypt.namespace in s.namespaces
    case NamespaceRemoved(name) => forall k :: k in s.crypts ==> s.crypts[k].namespace != name
    case StoreChanged(store) => rules.keys <= store.Keys
    case SecretWritten(secret) => KeepsOwner(rules.owner, secret.Id(), secret)
    case HandleDelete(_, listed) => forall k :: k in s.crypts ==> s.crypts[k].namespace in listed
    case FetchData(_, fault) => !fault
    case Create(_, fault) => !fault
    case Update(_, fault) => !fault
    case _ => true
  }

  ghost predicate KnownKeys(rules: Rules, worker: Worker) {
    && (worker.Matching? ==> UsesKeys(rules, worker.crypt.secrets))
    && (worker.Running? || worker.Writing() ==> forall t :: t in worker.todo ==> t.def.key in rules.keys)
  }

  ghost predicate Orderly(cfg: Config, rules: Rules, s: State) {
    && Owned(cfg, rules.owner, s)
    && rules.keys <= s.store.Keys
    && (forall k :: k in s.crypts ==> Lawful(cfg, rules, s.crypts[k]) && s.crypts[k].namespace in s.namespaces)
    && (forall i :: 0 <= i < |s.workers| ==> KnownKeys(rules, s.workers[i]))
  }

  // --- The rules are enough for the promises -------------------------------------------------------------

  /** Unique names and a complete listing: the owner of a deleted secret is found. */
  lemma OwnerWillBeListed(cfg: Config, rules: Rules, s: State, secret: Secret, listed: seq<string>)
    requires Orderly(cfg, rules, s) && Ruled(cfg, rules, s, HandleDelete(secret, listed))
    ensures OwnerIsListed(s, secret, listed)
  {
    forall k, l | k in s.crypts && l in s.crypts && s.crypts[l].name == s.crypts[k].name
      ensures l == k
    {
      assert Lawful(cfg, rules, s.crypts[k]) && Lawful(cfg, rules, s.crypts[l]);
    }
  }

  /** Cached homes with one selecting crypt each: a namespace addition passes nobody over. */
  lemma ConcernedWillBeFirst(cfg: Config, rules: Rules, s: State, name: string)
    requires Orderly(cfg, rules, s)
    ensures EachConcernedIsFirst(cfg, s.namespaces, s.crypts, name)
  {
    forall k, l | k in s.crypts && l in s.crypts && s.crypts[k].namespace == s.crypts[l].namespace
                  && SelectsNamespace(cfg, s.crypts[k], name) && SelectsNamespace(cfg, s.crypts[l], name)
      ensures k == l
    {
      assert Lawful(cfg, rules, s.crypts[k]) && Lawful(cfg, rules, s.crypts[l]);
    }
  }

  lemma KeyWillBeStored(cfg: Config, rules: Rules, s: State, step: Step)
    requires Orderly(cfg, rules, s) && Enabled(s, step) && step.FetchData?
    ensures s.workers[step.w].todo[0].def.key in s.store
  {
    assert KnownKeys(rules, s.workers[step.w]);
  }

  lemma RuledIsClean(cfg: Config, rules: Rules, s: State, step: Step)
    requires Orderly(cfg, rules, s) && Enabled(s, step) && Ruled(cfg, rules, s, step)
    ensures Clean(cfg, s, step)
  {
    hide EachConcernedIsFirst, OwnerIsListed, DeletedFromController, Orderly, ShowsCaches;
    if step.SecretDeleted? {
      OrderlyIsOwned(cfg, rules, s);
      OwnedDeletionIsClean(cfg, rules.owner, s, step.id);
    } else if step.HandleNamespace? {
      ConcernedWillBeFirst(cfg, rules, s, step.name);
    } else if step.HandleDelete? {
      OwnerWillBeListed(cfg, rules, s, step.secret, step.listed);
    } else if step.FetchData? {
      KeyWillBeStored(cfg, rules, s, step);
    }
  }

  lemma OrderlyIsOwned(cfg: Config, rules: Rules, s: State)
    requires Orderly(cfg, rules, s)
    ensures Owned(cfg, rules.owner, s)
  {
  }

  // --- The rules keep order ------------------------------------------------------------------------------

  lemma KnownKeysStep(cfg: Config, rules: Rules, s: State, step: Step)
    requires Orderly(cfg, rules, s) && Enabled(s, step) && IsWorkerStep(step)
    ensures KnownKeys(rules, WorkerAfter(cfg, s, step))
  {
    var worker := s.workers[step.w];
    assert KnownKeys(rules, worker);
    if step.ReadCrypt? {
      LookupIsCached(s.crypts, worker.key);
    } else if step.Plan? {
      forall t | t in Tasks(worker.crypt.secrets, worker.matched)
        ensures t.def.key in rules.keys
      {
        TasksMembers(worker.crypt.secrets, worker.matched, t);
      }
    }
  }

  lemma CachesStayLawful(cfg: Config, rules: Rules, s: State, step: Step)
    requires Orderly(cfg, rules, s) && Enabled(s, step) && Ruled(cfg, rules, s, step)
    ensures var crypts, namespaces := CryptsAfter(s, step), NamespacesAfter(s, step);
            forall k :: k in crypts ==> Lawful(cfg, rules, crypts[k]) && crypts[k].namespace in namespaces
    ensures rules.keys <= StoreAfter(s, step).Keys
  {
    hide Lawful, Owned, ShowsCaches;
  }

  lemma RuledRespects(cfg: Config, rules: Rules, s: State, step: Step)
    requires Ruled(cfg, rules, s, step)
    ensures Respects(cfg, rules.owner, step)
  {
  }

  lemma {:induction false} OrderlyStep(cfg: Config, rules: Rules, s: State, step: Step)
    requires Orderly(cfg, rules, s) && Enabled(s, step) && Ruled(cfg, rules, s, step)
    ensures Orderly(cfg, rules, Apply(cfg, s, step))
  {
    hide Owned, Lawful, KnownKeys, Ruled, ShowsCaches;
    hide CryptsAfter, NamespacesAfter, StoreAfter, SecretsAfter, QueueAfter, EventsAfter, LogAfter;
    RuledRespects(cfg, rules, s, step);
    OwnedStep(cfg, rules.owner, s, step);
    CachesStayLawful(cfg, rules, s, step);
    if IsWorkerStep(step) {
      KnownKeysStep(cfg, rules, s, step);
    }
  }

  // --- Over whole runs -----------------------------------------------------------------------------------

  ghost predicate IsRuledRun(cfg: Config, rules: Rules, states: seq<State>, steps: seq<Step>) {
    && IsRun(cfg, states, steps)
    && forall m :: 0 <= m < |steps| ==> Ruled(cfg, rules, states[m], steps[m])
  }

  /** Secrets that exist at the start belong to their owners, and the store has the keys in use. */
  ghost predicate RuledInit(rules: Rules, s: State) {
    && Init(s) && rules.keys <= s.store.Keys
    && forall id :: id in s.secrets ==> KeepsOwner(rules.owner, id, s.secrets[id])
  }

  lemma {:induction false} OrderlyRun(cfg: Config, rules: Rules, states: seq<State>, steps: seq<Step>, i: nat)
    requires IsRuledRun(cfg, rules, states, steps) && i < |states| && RuledInit(rules, states[0])
    ensures Orderly(cfg, rules, states[i])
  {
    hide Enabled, Apply, Ruled;
    if i > 0 {
      OrderlyRun(cfg, rules, states, steps, i - 1);
      assert Next(cfg, states[i - 1], steps[i - 1], states[i - 1 + 1]);
      OrderlyStep(cfg, rules, states[i - 1], steps[i - 1]);
    }
  }

  /** Every run under the rules is clean, so it never loses a wake-up. */
  lemma {:induction false} RulesLoseNoWakeUp(cfg: Config, rules: Rules, states: seq<State>, steps: seq<Step>, i: nat)
    requires IsRuledRun(cfg, rules, states, steps) && i < |states| && RuledInit(rules, states[0])
    ensures IsCleanRun(cfg, states, steps) && WakeInvariant(cfg, states[i])
  {
    hide Enabled, Apply, Ruled, Orderly, Clean, WakeInvariant;
    forall m | 0 <= m < |steps|
      ensures CleanNext(cfg, states[m], steps[m], states[m + 1])
    {
      OrderlyRun(cfg, rules, states, steps, m);
      assert Next(cfg, states[m], steps[m], states[m + 1]);
      RuledIsClean(cfg, rules, states[m], steps[m]);
    }
    NoWakeUpIsEverLost(cfg, states, steps, i);
  }
}
