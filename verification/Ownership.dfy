/**
 The usual way to keep every deletion clean: no two crypts ever share a target, told apart by namespace and name, and
 whoever else writes a target secret leaves its controller alone. Under these global rules each target secret stays
 controlled by a crypt of its owner's name.
 */
module Ownership {
  import opened Common
  import opened Resources
  import opened QueueKeys
  import opened Stores
  import opened Reconcile
  import opened Machine
  import opened WakeUp

  datatype CryptId = CryptId(namespace: string, name: string)

  function IdOf(crypt: Crypt): CryptId {
    CryptId(crypt.namespace, crypt.name)
  }

  /** For each identity that is ever a target, the one crypt that may target it. */
  type Owners = SecretId -> Option<CryptId>

  ghost predicate OwnsTargets(cfg: Config, owner: Owners, crypt: Crypt) {
    forall id :: Targets(cfg, crypt, id) ==> owner(id) == Some(IdOf(crypt))
  }

  /** Who controls a secret at a target identity is the owner; other identities are nobody's business. */
  ghost predicate KeepsOwner(owner: Owners, id: SecretId, secret: Secret) {
    owner(id).Some? ==> ControlledBy(secret, owner(id).value.name)
  }

  ghost predicate Respects(cfg: Config, owner: Owners, step: Step) {
    && (step.CryptCached? ==> OwnsTargets(cfg, owner, step.crypt))
    && (step.SecretWritten? ==> KeepsOwner(owner, step.secret.Id(), step.secret))
  }

  ghost predicate TasksOwned(owner: Owners, crypt: Crypt, todo: seq<Task>) {
    forall t :: t in todo ==> owner(t.Id()) == Some(IdOf(crypt))
  }

  ghost predicate OwnedWorker(cfg: Config, owner: Owners, worker: Worker) {
    && (worker.Matching? ==>
          && OwnsTargets(cfg, owner, worker.crypt)
          && (forall p :: p in worker.patterns ==> p in worker.crypt.namespaces)
          && (forall ns :: ns in worker.matched ==> MatchesSome(cfg, worker.crypt.namespaces, ns)))
    && (worker.Running? || worker.Writing() ==> TasksOwned(owner, worker.crypt, worker.todo))
    && (worker.Writing() ==> worker.todo != [] && ControlledBy(worker.secret, worker.crypt.name))
  }

  ghost predicate Owned(cfg: Config, owner: Owners, s: State) {
    && ValidCache(s.crypts)
    && (forall k :: k in s.crypts ==> OwnsTargets(cfg, owner, s.crypts[k]))
    && (forall id :: id in s.secrets ==> KeepsOwner(owner, id, s.secrets[id]))
    && (forall i :: 0 <= i < |s.workers| ==> OwnedWorker(cfg, owner, s.workers[i]))
  }

  lemma PlannedTasksOwned(cfg: Config, owner: Owners, crypt: Crypt, matched: seq<string>)
    requires OwnsTargets(cfg, owner, crypt)
    requires forall ns :: ns in matched ==> MatchesSome(cfg, crypt.namespaces, ns)
    ensures TasksOwned(owner, crypt, Tasks(crypt.secrets, matched))
  {
    forall t | t in Tasks(crypt.secrets, matched)
      ensures owner(t.Id()) == Some(IdOf(crypt))
    {
      TasksMembers(crypt.secrets, matched, t);
      assert Targets(cfg, crypt, t.Id());
    }
  }

  lemma OwnedWorkerStep(cfg: Config, owner: Owners, s: State, step: Step)
    requires Enabled(s, step) && IsWorkerStep(step) && Owned(cfg, owner, s)
    ensures OwnedWorker(cfg, owner, WorkerAfter(cfg, s, step))
  {
    var worker := s.workers[step.w];
    assert OwnedWorker(cfg, owner, worker);
    if step.ReadCrypt? {
      LookupIsCached(s.crypts, worker.key);
    } else if step.MatchPattern? {
      forall ns
        ensures ns in FilterMatches(cfg, worker.patterns[0], step.listing) ==>
                  MatchesSome(cfg, worker.crypt.namespaces, ns)
      {
        FilterMatchesMembers(cfg, worker.patterns[0], step.listing, ns);
      }
    } else if step.Plan? {
      PlannedTasksOwned(cfg, owner, worker.crypt, worker.matched);
    } else if step.FetchData? && !step.fault && worker.todo[0].def.key in s.store {
      var t := worker.todo[0];
      NewSecretIsControlled(GetData(s.store[t.def.key]), t.def, worker.crypt, t.namespace, worker.crypt.name);
    }
  }

  lemma SecretsStayOwned(cfg: Config, owner: Owners, s: State, step: Step)
    requires Enabled(s, step) && Respects(cfg, owner, step) && Owned(cfg, owner, s)
    ensures var after := SecretsAfter(s, step);
            forall id :: id in after ==> KeepsOwner(owner, id, after[id])
  {
    if Writes(s, step) {
      var worker := s.workers[step.w];
      assert OwnedWorker(cfg, owner, worker) && worker.todo[0] in worker.todo;
    }
  }

  lemma WorkersStayOwned(cfg: Config, owner: Owners, s: State, step: Step)
    requires Enabled(s, step) && Owned(cfg, owner, s)
    ensures var after := WorkersAfter(cfg, s, step);
            forall i :: 0 <= i < |after| ==> OwnedWorker(cfg, owner, after[i])
  {
    hide OwnedWorker;
    if IsWorkerStep(step) {
      OwnedWorkerStep(cfg, owner, s, step);
    }
  }

  lemma CacheStaysOwned(cfg: Config, owner: Owners, s: State, step: Step)
    requires Enabled(s, step) && Respects(cfg, owner, step) && Owned(cfg, owner, s)
    ensures var after := CryptsAfter(s, step);
            ValidCache(after) && forall k :: k in after ==> OwnsTargets(cfg, owner, after[k])
  {
    hide OwnsTargets, ValidCache;
    CacheStaysValid(s, step);
  }

  /** The rules keep every target secret in its owner's hands, through failures, races and deletions. */
  lemma {:induction false} OwnedStep(cfg: Config, owner: Owners, s: State, step: Step)
    requires Enabled(s, step) && Respects(cfg, owner, step) && Owned(cfg, owner, s)
    ensures Owned(cfg, owner, Apply(cfg, s, step))
  {
    hide Enabled, Respects, KeepsOwner, OwnsTargets, OwnedWorker, ValidCache, SecretsAfter, CryptsAfter, WorkersAfter;
    SecretsStayOwned(cfg, owner, s, step);
    WorkersStayOwned(cfg, owner, s, step);
    CacheStaysOwned(cfg, owner, s, step);
  }

  lemma {:induction false} OwnedRun(cfg: Config, owner: Owners, states: seq<State>, steps: seq<Step>, i: nat)
    requires IsRun(cfg, states, steps) && i < |states|
    requires Init(states[0]) && forall id :: id in states[0].secrets ==> KeepsOwner(owner, id, states[0].secrets[id])
    requires forall m :: 0 <= m < |steps| ==> Respects(cfg, owner, steps[m])
    ensures Owned(cfg, owner, states[i])
  {
    hide Enabled, Apply, Respects;
    if i > 0 {
      OwnedRun(cfg, owner, states, steps, i - 1);
      assert Next(cfg, states[i - 1], steps[i - 1], states[i - 1 + 1]);
      OwnedStep(cfg, owner, states[i - 1], steps[i - 1]);
    }
  }

  /** Two cached crypts that target one identity are one crypt, whatever their names. */
  lemma TargetsAreUnshared(cfg: Config, owner: Owners, s: State, k: string, l: string, id: SecretId)
    requires Owned(cfg, owner, s) && k in s.crypts && l in s.crypts
    requires Targets(cfg, s.crypts[k], id) && Targets(cfg, s.crypts[l], id)
    ensures k == l
  {
    assert OwnsTargets(cfg, owner, s.crypts[k]) && OwnsTargets(cfg, owner, s.crypts[l]);
  }

  /** So every deletion keeps the promise the wake-up theorem asks for. */
  lemma OwnedDeletionIsClean(cfg: Config, owner: Owners, s: State, id: SecretId)
    requires Owned(cfg, owner, s) && id in s.secrets
    ensures DeletedFromController(cfg, s, id)
  {
    assert KeepsOwner(owner, id, s.secrets[id]);
  }

  /** At rest every wanted secret exists and is controlled by the crypt that wants it. */
  lemma DrainedIsControlled(cfg: Config, owner: Owners, s: State, key: string, id: SecretId)
    requires Owned(cfg, owner, s) && WakeInvariant(cfg, s) && Drained(s) && Wants(cfg, s, key, id)
    ensures id in s.secrets && ControlledBy(s.secrets[id], s.crypts[key].name)
  {
    DrainedIsComplete(cfg, s, key, id);
    assert OwnsTargets(cfg, owner, s.crypts[key]) && KeepsOwner(owner, id, s.secrets[id]);
  }
}
