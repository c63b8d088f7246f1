/**
 Where written secrets come from. Over every run, with any failures and any environment: each secret the controller
 writes is one store entry's whole data as it was at one moment of the sync that wrote it, for a crypt that was
 cached when that sync read it; the API never holds a mix; and for a secret with a single crypt the store is never
 seen going backwards.
 */
module Provenance {
  import opened Common
  import opened Resources
  import opened QueueKeys
  import opened Stores
  import opened Reconcile
  import opened Machine
  import opened Discipline
  import opened WakeUp

  /** The crypt was cached under the key in the state of time `at`. */
  ghost predicate CachedAt(states: seq<State>, at: nat, key: string, crypt: Crypt) {
    at < |states| && Lookup(states[at].crypts, key) == Some(crypt)
  }

  /** The whole entry, under the definition's name and trimmings, owned and controlled by the crypt and nothing else. */
  ghost predicate Carries(secret: Secret, entry: Object, crypt: Crypt, task: Task) {
    && secret.data == (if entry.Some? then entry.value else map[])
    && secret.Id() == SecretId(task.namespace, task.def.name)
    && secret.labels == task.def.labels && secret.annotations == task.def.annotations
    && secret.secretType == (if task.def.secretType == "" then "Opaque" else task.def.secretType)
    && secret.owners
       == [OwnerReference("core.bluehoodie.io/v1alpha1", "Crypt", crypt.name, crypt.uid, true, true)]
  }

  /** The secret carries the task's entry in the store as it was at time `at`. */
  ghost predicate RenderedAt(states: seq<State>, at: nat, crypt: Crypt, task: Task, secret: Secret) {
    && at < |states| && task.def.key in states[at].store
    && Carries(secret, states[at].store[task.def.key], crypt, task)
  }

  lemma RenderedCarries(store: Contents, crypt: Crypt, task: Task)
    requires task.def.key in store
    ensures Carries(Rendered(store, crypt, task), store[task.def.key], crypt, task)
  {
  }

  ghost predicate TasksTargeted(cfg: Config, crypt: Crypt, todo: seq<Task>) {
    forall t :: t in todo ==> t.def in crypt.secrets && MatchesSome(cfg, crypt.namespaces, t.namespace)
  }

  /** What a worker carries at time `now`, traced back through the earlier states of the run. */
  ghost predicate TracedWorker(cfg: Config, states: seq<State>, now: nat, worker: Worker) {
    && (worker.Matching? || worker.Running? || worker.Writing() ==>
          worker.cryptAt < now && CachedAt(states, worker.cryptAt, worker.key, worker.crypt))
    && (worker.Matching? ==>
          && (forall p :: p in worker.patterns ==> p in worker.crypt.namespaces)
          && (forall ns :: ns in worker.matched ==> MatchesSome(cfg, worker.crypt.namespaces, ns)))
    && (worker.Running? || worker.Writing() ==> TasksTargeted(cfg, worker.crypt, worker.todo))
    && (worker.Writing() ==>
          && worker.todo != [] && worker.cryptAt < worker.dataAt < now
          && RenderedAt(states, worker.dataAt, worker.crypt, worker.todo[0], worker.secret))
  }

  /** What the log says about a write of the controller, traced back in the same way. */
  ghost predicate TracedWrite(cfg: Config, states: seq<State>, now: nat, write: Write) {
    write.Synced? ==>
      && write.cryptAt < write.dataAt < write.at < now
      && CachedAt(states, write.cryptAt, write.key, write.crypt)
      && RenderedAt(states, write.dataAt, write.crypt, write.task, write.secret)
      && TasksTargeted(cfg, write.crypt, [write.task])
      && write.at + 1 < |states| && Find(states[write.at + 1].secrets, write.secret.Id()) == Some(write.secret)
  }

  ghost predicate Traced(cfg: Config, states: seq<State>, now: nat)
    requires now < |states|
  {
    && states[now].clock == now
    && (forall i :: 0 <= i < |states[now].workers| ==> TracedWorker(cfg, states, now, states[now].workers[i]))
    && (forall i :: 0 <= i < |states[now].log| ==> TracedWrite(cfg, states, now, states[now].log[i]))
  }

  lemma PlannedTasksTargeted(cfg: Config, crypt: Crypt, matched: seq<string>)
    requires forall ns :: ns in matched ==> MatchesSome(cfg, crypt.namespaces, ns)
    ensures TasksTargeted(cfg, crypt, Tasks(crypt.secrets, matched))
  {
    forall t | t in Tasks(crypt.secrets, matched)
      ensures t.def in crypt.secrets && MatchesSome(cfg, crypt.namespaces, t.namespace)
    {
      TasksMembers(crypt.secrets, matched, t);
    }
  }

  lemma TracedWorkerStep(cfg: Config, states: seq<State>, now: nat, step: Step)
    requires now < |states| && Enabled(states[now], step) && IsWorkerStep(step) && Traced(cfg, states, now)
    ensures TracedWorker(cfg, states, now + 1, WorkerAfter(cfg, states[now], step))
  {
    var s := states[now];
    var worker := s.workers[step.w];
    assert TracedWorker(cfg, states, now, worker);
    if step.MatchPattern? {
      forall ns
        ensures ns in FilterMatches(cfg, worker.patterns[0], step.listing) ==>
                  MatchesSome(cfg, worker.crypt.namespaces, ns)
      {
        FilterMatchesMembers(cfg, worker.patterns[0], step.listing, ns);
      }
    } else if step.Plan? {
      PlannedTasksTargeted(cfg, worker.crypt, worker.matched);
    } else if step.FetchData? && worker.todo[0].def.key in s.store {
      RenderedCarries(s.store, worker.crypt, worker.todo[0]);
    }
  }

  lemma {:induction false} TracedStep(cfg: Config, states: seq<State>, now: nat, step: Step)
    requires now + 1 < |states| && Next(cfg, states[now], step, states[now + 1]) && Traced(cfg, states, now)
    ensures Traced(cfg, states, now + 1)
  {
    var s, after := states[now], states[now + 1];
    if IsWorkerStep(step) {
      TracedWorkerStep(cfg, states, now, step);
      assert TracedWorker(cfg, states, now, s.workers[step.w]);
    }
    forall i | 0 <= i < |after.workers|
      ensures TracedWorker(cfg, states, now + 1, after.workers[i])
    {
      assert TracedWorker(cfg, states, now, s.workers[i]);
    }
    forall i | 0 <= i < |after.log|
      ensures TracedWrite(cfg, states, now + 1, after.log[i])
    {
      if i < |s.log| {
        assert TracedWrite(cfg, states, now, s.log[i]);
      }
    }
  }

  lemma InitialTrace(cfg: Config, states: seq<State>)
    requires states != [] && Init(states[0])
    ensures Traced(cfg, states, 0)
  {
  }

  /** Every write in the log of every run has its provenance. */
  lemma {:induction false} EveryWriteIsTraced(cfg: Config, states: seq<State>, steps: seq<Step>, n: nat)
    requires IsRun(cfg, states, steps) && Init(states[0]) && n < |states|
    ensures Traced(cfg, states, n)
  {
    hide Next, Traced;
    if n == 0 {
      InitialTrace(cfg, states);
    } else {
      EveryWriteIsTraced(cfg, states, steps, n - 1);
      assert Next(cfg, states[n - 1], steps[n - 1], states[n - 1 + 1]);
      TracedStep(cfg, states, n - 1, steps[n - 1]);
    }
  }

  /**
   The same without names for its parts. Every secret the controller has written is, to the last field, what one crypt
   that was cached when the sync read it asks for, filled with one store entry that was current later in that sync and
   before the write.
   */
  lemma WriteHasProvenance(cfg: Config, states: seq<State>, steps: seq<Step>, n: nat, e: nat)
    requires IsRun(cfg, states, steps) && Init(states[0]) && n < |states|
    requires e < |states[n].log| && states[n].log[e].Synced?
    ensures var write := states[n].log[e];
            var crypt, def, namespace := write.crypt, write.task.def, write.task.namespace;
            && write.cryptAt < write.dataAt < write.at < n
            && Find(states[write.at + 1].secrets, SecretId(namespace, def.name)) == Some(write.secret)
            && write.key in states[write.cryptAt].crypts && states[write.cryptAt].crypts[write.key] == crypt
            && def in crypt.secrets && (exists p :: p in crypt.namespaces && cfg.matches(p, namespace))
            && def.key in states[write.dataAt].store
            && var entry := states[write.dataAt].store[def.key];
               write.secret
               == Secret(namespace, def.name,
                         [OwnerReference("core.bluehoodie.io/v1alpha1", "Crypt", crypt.name, crypt.uid, true, true)],
                         def.labels, def.annotations, if def.secretType == "" then "Opaque" else def.secretType,
                         if entry.Some? then entry.value else map[])
  {
    hide Next;
    EveryWriteIsTraced(cfg, states, steps, n);
    var write := states[n].log[e];
    assert TracedWrite(cfg, states, n, write);
    assert write.task in [write.task];
    CachesStayValid(cfg, states, steps, write.cryptAt);
    LookupIsCached(states[write.cryptAt].crypts, write.key);
  }

  // --- The API holds whole writes ----------------------------------------------------------------------

  /** The last write to the identity, by whomever. */
  ghost function LastWrite(log: seq<Write>, id: SecretId): Option<Write> {
    if log == [] then None
    else if log[|log| - 1].secret.Id() == id then Some(log[|log| - 1])
    else LastWrite(log[..|log| - 1], id)
  }

  ghost predicate HoldsLastWrite(first: State, s: State) {
    forall id :: id in s.secrets ==>
      var write := LastWrite(s.log, id);
      if write.Some? then s.secrets[id] == write.value.secret
      else id in first.secrets && s.secrets[id] == first.secrets[id]
  }

  lemma LastWriteGrows(log: seq<Write>, write: Write, id: SecretId)
    ensures LastWrite(log + [write], id) == if write.secret.Id() == id then Some(write) else LastWrite(log, id)
  {
    assert (log + [write])[..|log|] == log;
  }

  /** The log records exactly the writes: a new entry's secret is what the API then holds. */
  lemma SecretsFollowLog(cfg: Config, states: seq<State>, now: nat, step: Step, id: SecretId)
    requires now + 1 < |states| && Next(cfg, states[now], step, states[now + 1]) && Traced(cfg, states, now)
    requires id in states[now + 1].secrets
    ensures var s, after := states[now], states[now + 1];
            || (after.log == s.log && id in s.secrets && after.secrets[id] == s.secrets[id])
            || exists write :: after.log == s.log + [write]
                               && if write.secret.Id() == id then after.secrets[id] == write.secret
                                  else id in s.secrets && after.secrets[id] == s.secrets[id]
  {
    hide QueueAfter, EventsAfter, WorkersAfter, CryptsAfter, NamespacesAfter, StoreAfter;
    var s, after := states[now], states[now + 1];
    if Writes(s, step) {
      assert TracedWorker(cfg, states, now, s.workers[step.w]);
      assert s.workers[step.w].secret.Id() == s.workers[step.w].todo[0].Id();
    }
    if after.log != s.log {
      assert after.log == s.log + [after.log[|s.log|]];
    }
  }

  lemma HoldsLastWriteStep(cfg: Config, states: seq<State>, now: nat, step: Step)
    requires now + 1 < |states| && Next(cfg, states[now], step, states[now + 1]) && Traced(cfg, states, now)
    requires HoldsLastWrite(states[0], states[now])
    ensures HoldsLastWrite(states[0], states[now + 1])
  {
    hide Next, Traced, LastWrite;
    var s, after := states[now], states[now + 1];
    forall id | id in after.secrets
      ensures var write := LastWrite(after.log, id);
              if write.Some? then after.secrets[id] == write.value.secret
              else id in states[0].secrets && after.secrets[id] == states[0].secrets[id]
    {
      SecretsFollowLog(cfg, states, now, step, id);
      if after.log != s.log {
        var write :| after.log == s.log + [write]
                     && if write.secret.Id() == id then after.secrets[id] == write.secret
                        else id in s.secrets && after.secrets[id] == s.secrets[id];
        LastWriteGrows(s.log, write, id);
      }
    }
  }

  /**
   In every state of every run a secret is exactly what the last write to it carried, or what was there from the
   start: one crypt's whole secret, even where targets overlap and workers interleave.
   */
  lemma {:induction false} SecretsAreWholeWrites(cfg: Config, states: seq<State>, steps: seq<Step>, n: nat)
    requires IsRun(cfg, states, steps) && Init(states[0]) && n < |states|
    ensures HoldsLastWrite(states[0], states[n])
  {
    hide Next, Traced;
    if n > 0 {
      SecretsAreWholeWrites(cfg, states, steps, n - 1);
      EveryWriteIsTraced(cfg, states, steps, n - 1);
      assert Next(cfg, states[n - 1], steps[n - 1], states[n - 1 + 1]);
      HoldsLastWriteStep(cfg, states, n - 1, steps[n - 1]);
    }
  }

  // --- Freshness ---------------------------------------------------------------------------------------

  /** Only the crypt of one key ever targets the identity. */
  ghost predicate SoleTargeter(cfg: Config, states: seq<State>, key: string, id: SecretId) {
    forall m, k :: 0 <= m < |states| && k in states[m].crypts && k != key ==> !Targets(cfg, states[m].crypts[k], id)
  }

  ghost predicate WritesTo(write: Write, id: SecretId) {
    write.Synced? && write.task.Id() == id
  }

  /** Whatever is about to be written is newer than everything written. */
  ghost predicate NewerInHand(s: State, id: SecretId) {
    forall i, e :: 0 <= i < |s.workers| && s.workers[i].Writing() && s.workers[i].todo != []
                   && s.workers[i].todo[0].Id() == id && 0 <= e < |s.log| && WritesTo(s.log[e], id)
      ==> s.log[e].dataAt < s.workers[i].dataAt
  }

  ghost predicate LogIsFresh(log: seq<Write>, id: SecretId) {
    forall d, e :: 0 <= d < e < |log| && WritesTo(log[d], id) && WritesTo(log[e], id) ==> log[d].dataAt < log[e].dataAt
  }

  ghost predicate CachesValid(states: seq<State>) {
    forall m :: 0 <= m < |states| ==> ValidCache(states[m].crypts)
  }

  lemma {:induction false} CachesStayValid(cfg: Config, states: seq<State>, steps: seq<Step>, n: nat)
    requires IsRun(cfg, states, steps) && Init(states[0]) && n < |states|
    ensures ValidCache(states[n].crypts)
  {
    if n > 0 {
      CachesStayValid(cfg, states, steps, n - 1);
      assert Next(cfg, states[n - 1], steps[n - 1], states[n - 1 + 1]);
      CacheStaysValid(states[n - 1], steps[n - 1]);
    }
  }

  /** A worker with the identity on its list holds the one key that targets it. */
  lemma HolderIsTargeter(cfg: Config, states: seq<State>, now: nat, key: string, id: SecretId, worker: Worker,
                         task: Task)
    requires CachesValid(states) && SoleTargeter(cfg, states, key, id)
    requires TracedWorker(cfg, states, now, worker) && (worker.Running? || worker.Writing())
    requires task in worker.todo && task.Id() == id
    ensures worker.key == key
  {
    LookupIsCached(states[worker.cryptAt].crypts, worker.key);
    assert Targets(cfg, worker.crypt, id);
  }

  lemma {:induction false} FreshStep(cfg: Config, states: seq<State>, now: nat, step: Step, key: string, id: SecretId)
    requires now + 1 < |states| && Next(cfg, states[now], step, states[now + 1])
    requires Traced(cfg, states, now) && CachesValid(states) && SoleTargeter(cfg, states, key, id)
    requires Disciplined(states[now])
    requires NewerInHand(states[now], id) && LogIsFresh(states[now].log, id)
    ensures NewerInHand(states[now + 1], id) && LogIsFresh(states[now + 1].log, id)
  {
    var s, after := states[now], states[now + 1];
    forall e | 0 <= e < |s.log| && WritesTo(s.log[e], id)
      ensures s.log[e].dataAt < now
    {
      assert TracedWrite(cfg, states, now, s.log[e]);
    }
    if Writes(s, step) && s.workers[step.w].todo[0].Id() == id {
      var writer := s.workers[step.w];
      assert TracedWorker(cfg, states, now, writer);
      HolderIsTargeter(cfg, states, now, key, id, writer, writer.todo[0]);
      forall i | 0 <= i < |s.workers| && i != step.w && s.workers[i].Writing() && s.workers[i].todo != []
        ensures s.workers[i].todo[0].Id() != id
      {
        if s.workers[i].todo[0].Id() == id {
          HolderIsTargeter(cfg, states, now, key, id, s.workers[i], s.workers[i].todo[0]);
          assert s.workers[i].Busy() && writer.Busy();
          assert false;
        }
      }
    }
    NewerInHandStep(cfg, s, step, after, now, id);
  }

  /**
   A worker with a secret in hand after a step had it before, or has just read the store; a writer has let go of it.
   */
  lemma InHandAfter(cfg: Config, s: State, step: Step, after: State, i: nat)
    requires Next(cfg, s, step, after) && i < |after.workers| && after.workers[i].Writing()
    ensures i < |s.workers|
    ensures after.workers[i].dataAt == s.clock
            || (s.workers[i].Writing() && s.workers[i].todo == after.workers[i].todo
                && s.workers[i].dataAt == after.workers[i].dataAt)
    ensures Writes(s, step) ==> i != step.w
  {
    hide QueueAfter, EventsAfter, SecretsAfter, LogAfter, CryptsAfter, NamespacesAfter, StoreAfter;
  }

  lemma LogGrows(cfg: Config, s: State, step: Step, after: State, id: SecretId)
    requires Next(cfg, s, step, after)
    ensures |s.log| <= |after.log| <= |s.log| + 1 && after.log[..|s.log|] == s.log
    ensures |after.log| > |s.log| && WritesTo(after.log[|s.log|], id) ==>
              && Writes(s, step) && step.w < |s.workers| && s.workers[step.w].todo != []
              && s.workers[step.w].todo[0].Id() == id
              && s.workers[step.w].Writing() && s.workers[step.w].dataAt == after.log[|s.log|].dataAt
  {
  }

  lemma NewerInHandStep(cfg: Config, s: State, step: Step, after: State, now: nat, id: SecretId)
    requires Next(cfg, s, step, after) && s.clock == now
    requires NewerInHand(s, id) && LogIsFresh(s.log, id)
    requires forall e :: 0 <= e < |s.log| && WritesTo(s.log[e], id) ==> s.log[e].dataAt < now
    requires Writes(s, step) && s.workers[step.w].todo[0].Id() == id ==>
               forall i :: 0 <= i < |s.workers| && i != step.w && s.workers[i].Writing() && s.workers[i].todo != []
                 ==> s.workers[i].todo[0].Id() != id
    requires Writes(s, step) ==> s.workers[step.w].dataAt < now
    ensures NewerInHand(after, id) && LogIsFresh(after.log, id)
  {
    hide Next;
    LogGrows(cfg, s, step, after, id);
    assert forall e :: 0 <= e < |s.log| ==> after.log[e] == s.log[e];
    forall i, e | 0 <= i < |after.workers| && after.workers[i].Writing() && after.workers[i].todo != []
                  && after.workers[i].todo[0].Id() == id && 0 <= e < |after.log| && WritesTo(after.log[e], id)
      ensures after.log[e].dataAt < after.workers[i].dataAt
    {
      InHandAfter(cfg, s, step, after, i);
    }
    forall d, e | 0 <= d < e < |after.log| && WritesTo(after.log[d], id) && WritesTo(after.log[e], id)
      ensures after.log[d].dataAt < after.log[e].dataAt
    {
      if e == |s.log| {
        assert WritesTo(s.log[d], id) && s.workers[step.w].todo[0].Id() == id;
      }
    }
  }

  /** Successive writes to a secret with a single crypt come from strictly later readings of the store. */
  lemma {:induction false} StoreNeverGoesBack(cfg: Config, states: seq<State>, steps: seq<Step>, key: string,
                                              id: SecretId, n: nat)
    requires IsRun(cfg, states, steps) && Init(states[0]) && n < |states|
    requires SoleTargeter(cfg, states, key, id)
    ensures NewerInHand(states[n], id) && LogIsFresh(states[n].log, id)
  {
    hide Next, Traced, Disciplined, SoleTargeter, ValidCache;
    if n > 0 {
      InitDisciplined(states[0]);
      StoreNeverGoesBack(cfg, states, steps, key, id, n - 1);
      EveryWriteIsTraced(cfg, states, steps, n - 1);
      DisciplineRun(cfg, states, steps, n - 1);
      forall m | 0 <= m < |states|
        ensures ValidCache(states[m].crypts)
      {
        CachesStayValid(cfg, states, steps, m);
      }
      assert Next(cfg, states[n - 1], steps[n - 1], states[n - 1 + 1]);
      FreshStep(cfg, states, n - 1, steps[n - 1], key, id);
    }
  }

  /** Spelled out: of two writes of the controller to such a secret the later one carries the later reading. */
  lemma LaterWriteLaterReading(cfg: Config, states: seq<State>, steps: seq<Step>, key: string, id: SecretId, n: nat,
                               d: nat, e: nat)
    requires IsRun(cfg, states, steps) && Init(states[0]) && n < |states|
    requires forall m, k :: 0 <= m < |states| && k in states[m].crypts && k != key ==>
               !Targets(cfg, states[m].crypts[k], id)
    requires d < e < |states[n].log| && states[n].log[d].Synced? && states[n].log[e].Synced?
    requires states[n].log[d].task.Id() == id == states[n].log[e].task.Id()
    ensures states[n].log[d].dataAt < states[n].log[e].dataAt
  {
    hide Next;
    StoreNeverGoesBack(cfg, states, steps, key, id, n);
    assert WritesTo(states[n].log[d], id) && WritesTo(states[n].log[e], id);
  }
}
