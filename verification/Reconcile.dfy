/**
 One sync of one crypt, without interference: first as the fold over (definition, namespace) pairs that
 the controller runs, then as a declarative statement of what every secret holds afterwards.
 */
module Reconcile {
  import opened Common
  import opened Resources
  import opened Stores

  /**
   The parts of the environment that never change: which namespaces a pattern matches (an invalid pattern
   matches none) and which secrets the API server turns down whatever the operation.
   */
  datatype Config = Config(matches: (string, string) -> bool, denies: Secret -> bool)

  type Secrets = map<SecretId, Secret>

  datatype Task = Task(def: SecretDefinition, namespace: string)
  {
    function Id(): SecretId {
      SecretId(namespace, def.name)
    }
  }

  // --- The fold the code runs -------------------------------------------------------------------------

  /** The namespaces of one listing that a pattern matches, in listing order. */
  function FilterMatches(cfg: Config, pattern: string, listing: seq<string>): seq<string> {
    if listing == [] then
      []
    else
      (if cfg.matches(pattern, listing[0]) then [listing[0]] else []) + FilterMatches(cfg, pattern, listing[1..])
  }

  function TasksFor(def: SecretDefinition, namespaces: seq<string>): seq<Task> {
    if namespaces == [] then [] else [Task(def, namespaces[0])] + TasksFor(def, namespaces[1..])
  }

  /** Definitions outside, namespaces inside: the order of the two nested loops. */
  function Tasks(defs: seq<SecretDefinition>, namespaces: seq<string>): seq<Task> {
    if defs == [] then [] else TasksFor(defs[0], namespaces) + Tasks(defs[1..], namespaces)
  }

  /** The secret a task writes when its lookup succeeds. */
  function Rendered(store: Contents, crypt: Crypt, t: Task): Secret
    requires t.def.key in store
  {
    NewSecret(GetData(store[t.def.key]), t.def, crypt, t.namespace)
  }

  /** The store has the task's key and the API server takes the resulting secret. */
  predicate Effective(cfg: Config, store: Contents, crypt: Crypt, t: Task) {
    t.def.key in store && !cfg.denies(Rendered(store, crypt, t))
  }

  /** Create, or update when it is already there; a failed lookup or a refused write changes nothing. */
  function RunTask(cfg: Config, store: Contents, crypt: Crypt, api: Secrets, t: Task): Secrets {
    if Effective(cfg, store, crypt, t) then api[t.Id() := Rendered(store, crypt, t)] else api
  }

  function RunTasks(cfg: Config, store: Contents, crypt: Crypt, api: Secrets, ts: seq<Task>): Secrets
    decreases |ts|
  {
    if ts == [] then api else RunTasks(cfg, store, crypt, RunTask(cfg, store, crypt, api, ts[0]), ts[1..])
  }

  function SyncCrypt(cfg: Config, store: Contents, crypt: Crypt, matched: seq<string>, api: Secrets): Secrets {
    RunTasks(cfg, store, crypt, api, Tasks(crypt.secrets, matched))
  }

  // --- What it means ----------------------------------------------------------------------------------

  predicate MatchesSome(cfg: Config, patterns: seq<string>, namespace: string) {
    exists p :: p in patterns && cfg.matches(p, namespace)
  }

  /** The cached namespaces a crypt selects. */
  ghost function Selected(cfg: Config, patterns: seq<string>, namespaces: set<string>): set<string> {
    set ns | ns in namespaces && MatchesSome(cfg, patterns, ns)
  }

  /** The last definition of the given name that takes effect in the given namespace. */
  function LastGood(cfg: Config, store: Contents, crypt: Crypt, defs: seq<SecretDefinition>, id: SecretId)
    : Option<SecretDefinition>
  {
    if defs == [] then
      None
    else
      OrElse(LastGood(cfg, store, crypt, defs[1..], id),
             if IsGood(cfg, store, crypt, defs[0], id) then Some(defs[0]) else None)
  }

  predicate IsGood(cfg: Config, store: Contents, crypt: Crypt, def: SecretDefinition, id: SecretId) {
    def.name == id.name && Effective(cfg, store, crypt, Task(def, id.namespace))
  }

  /** The secret a crypt wants at `id`: nothing unless it selects the namespace and some definition is good. */
  function Desired(cfg: Config, store: Contents, namespaces: set<string>, crypt: Crypt,
                   id: SecretId): (r: Option<Secret>)
    ensures r.Some? ==> r.value.Id() == id && ControlledBy(r.value, crypt.name)
  {
    if id.namespace in namespaces && MatchesSome(cfg, crypt.namespaces, id.namespace) then
      DesiredIn(cfg, store, crypt, id)
    else
      None
  }

  function DesiredIn(cfg: Config, store: Contents, crypt: Crypt, id: SecretId): (r: Option<Secret>)
    ensures r.Some? ==> r.value.Id() == id && ControlledBy(r.value, crypt.name)
  {
    var def := LastGood(cfg, store, crypt, crypt.secrets, id);
    if def.None? then None
    else
      LastGoodIsLast(cfg, store, crypt, crypt.secrets, id);
      NewSecretIsControlled(GetData(store[def.value.key]), def.value, crypt, id.namespace, crypt.name);
      Some(Rendered(store, crypt, Task(def.value, id.namespace)))
  }

  /** `LastGood` is what its name says, independently of how it searches. */
  lemma {:induction false} LastGoodIsLast(cfg: Config, store: Contents, crypt: Crypt, defs: seq<SecretDefinition>,
                                          id: SecretId)
    ensures var r := LastGood(cfg, store, crypt, defs, id);
            && (r.Some? ==> exists i :: 0 <= i < |defs| && defs[i] == r.value && IsGood(cfg, store, crypt, defs[i], id)
                                        && forall j :: i < j < |defs| ==> !IsGood(cfg, store, crypt, defs[j], id))
            && (r.None? ==> forall j :: 0 <= j < |defs| ==> !IsGood(cfg, store, crypt, defs[j], id))
  {
    if defs != [] {
      var rest := LastGood(cfg, store, crypt, defs[1..], id);
      LastGoodIsLast(cfg, store, crypt, defs[1..], id);
      assert forall j :: 0 < j < |defs| ==> defs[j] == defs[1..][j - 1];
      if rest.Some? {
        var i :| 0 <= i < |defs[1..]| && defs[1..][i] == rest.value && IsGood(cfg, store, crypt, defs[1..][i], id)
                 && forall j :: i < j < |defs[1..]| ==> !IsGood(cfg, store, crypt, defs[1..][j], id);
        assert defs[i + 1] == rest.value;
      }
    }
  }

  /** The last task of a list that takes effect at `id`. */
  function LastEffective(cfg: Config, store: Contents, crypt: Crypt, ts: seq<Task>, id: SecretId): Option<Task> {
    if ts == [] then
      None
    else
      OrElse(LastEffective(cfg, store, crypt, ts[1..], id),
             if ts[0].Id() == id && Effective(cfg, store, crypt, ts[0]) then Some(ts[0]) else None)
  }

  /** What a list of tasks leaves at `id`. */
  function Outcome(cfg: Config, store: Contents, crypt: Crypt, ts: seq<Task>, id: SecretId): Option<Secret> {
    var t := LastEffective(cfg, store, crypt, ts, id);
    if t.Some? && t.value.def.key in store then Some(Rendered(store, crypt, t.value)) else None
  }

  lemma {:induction false} LastEffectiveIsEffective(cfg: Config, store: Contents, crypt: Crypt, ts: seq<Task>,
                                                    id: SecretId)
    ensures var t := LastEffective(cfg, store, crypt, ts, id);
            t.Some? ==> t.value in ts && t.value.Id() == id && Effective(cfg, store, crypt, t.value)
    ensures (exists t :: t in ts && t.Id() == id && Effective(cfg, store, crypt, t))
              <==> LastEffective(cfg, store, crypt, ts, id).Some?
  {
    if ts != [] {
      LastEffectiveIsEffective(cfg, store, crypt, ts[1..], id);
      assert forall t :: t in ts <==> t == ts[0] || t in ts[1..];
    }
  }

  /** The fold, read at one identity: the last effective task wins, everything else stays. */
  lemma {:induction false} RunTasksAt(cfg: Config, store: Contents, crypt: Crypt, api: Secrets, ts: seq<Task>,
                                      id: SecretId)
    ensures Find(RunTasks(cfg, store, crypt, api, ts), id) == OrElse(Outcome(cfg, store, crypt, ts, id), Find(api, id))
    decreases |ts|
  {
    if ts != [] {
      RunTasksAt(cfg, store, crypt, RunTask(cfg, store, crypt, api, ts[0]), ts[1..], id);
      LastEffectiveIsEffective(cfg, store, crypt, ts[1..], id);
    }
  }

  lemma {:induction false} RunTasksConcat(cfg: Config, store: Contents, crypt: Crypt, api: Secrets, a: seq<Task>,
                                          b: seq<Task>)
    ensures RunTasks(cfg, store, crypt, api, a + b)
         == RunTasks(cfg, store, crypt, RunTasks(cfg, store, crypt, api, a), b)
    decreases |a|
  {
    if a == [] {
      assert a + b == b;
    } else {
      assert (a + b)[1..] == a[1..] + b;
      RunTasksConcat(cfg, store, crypt, RunTask(cfg, store, crypt, api, a[0]), a[1..], b);
    }
  }

  lemma {:induction false} LastEffectiveConcat(cfg: Config, store: Contents, crypt: Crypt, a: seq<Task>, b: seq<Task>,
                                               id: SecretId)
    ensures LastEffective(cfg, store, crypt, a + b, id)
         == OrElse(LastEffective(cfg, store, crypt, b, id), LastEffective(cfg, store, crypt, a, id))
  {
    if a == [] {
      assert a + b == b;
    } else {
      assert (a + b)[1..] == a[1..] + b;
      LastEffectiveConcat(cfg, store, crypt, a[1..], b, id);
    }
  }

  lemma {:induction false} TasksForLast(cfg: Config, store: Contents, crypt: Crypt, def: SecretDefinition,
                                        namespaces: seq<string>, id: SecretId)
    ensures LastEffective(cfg, store, crypt, TasksFor(def, namespaces), id)
         == if id.namespace in namespaces && IsGood(cfg, store, crypt, def, id) then Some(Task(def, id.namespace))
            else None
  {
    if namespaces != [] {
      TasksForLast(cfg, store, crypt, def, namespaces[1..], id);
      assert TasksFor(def, namespaces)[1..] == TasksFor(def, namespaces[1..]);
      assert id.namespace in namespaces <==> id.namespace == namespaces[0] || id.namespace in namespaces[1..];
    }
  }

  /** Over the nested loops, the last effective task at `id` is the last good definition of that name. */
  lemma {:induction false} TasksLast(cfg: Config, store: Contents, crypt: Crypt, defs: seq<SecretDefinition>,
                                     namespaces: seq<string>, id: SecretId)
    ensures LastEffective(cfg, store, crypt, Tasks(defs, namespaces), id)
         == (var good := LastGood(cfg, store, crypt, defs, id);
             if id.namespace in namespaces && good.Some? then Some(Task(good.value, id.namespace)) else None)
  {
    if defs != [] {
      TasksLast(cfg, store, crypt, defs[1..], namespaces, id);
      TasksForLast(cfg, store, crypt, defs[0], namespaces, id);
      LastEffectiveConcat(cfg, store, crypt, TasksFor(defs[0], namespaces), Tasks(defs[1..], namespaces), id);
    }
  }

  lemma TasksOutcome(cfg: Config, store: Contents, crypt: Crypt, namespaces: set<string>, matched: seq<string>,
                     id: SecretId)
    requires (set ns | ns in matched) == Selected(cfg, crypt.namespaces, namespaces)
    ensures Outcome(cfg, store, crypt, Tasks(crypt.secrets, matched), id) == Desired(cfg, store, namespaces, crypt, id)
  {
    TasksLast(cfg, store, crypt, crypt.secrets, matched, id);
    LastGoodIsLast(cfg, store, crypt, crypt.secrets, id);
    assert id.namespace in matched <==> id.namespace in Selected(cfg, crypt.namespaces, namespaces);
  }

  /**
   The sync loop against its declarative meaning: every identity the crypt wants holds the wanted secret, every
   other identity is untouched, whichever lookups fail and however often a namespace was matched.
   */
  lemma SyncMeaning(cfg: Config, store: Contents, crypt: Crypt, namespaces: set<string>, matched: seq<string>,
                    api: Secrets, id: SecretId)
    requires (set ns | ns in matched) == Selected(cfg, crypt.namespaces, namespaces)
    ensures Find(SyncCrypt(cfg, store, crypt, matched, api), id)
         == OrElse(Desired(cfg, store, namespaces, crypt, id), Find(api, id))
  {
    RunTasksAt(cfg, store, crypt, api, Tasks(crypt.secrets, matched), id);
    TasksOutcome(cfg, store, crypt, namespaces, matched, id);
  }

  // --- Consequences -----------------------------------------------------------------------------------

  /** The matches of all patterns, one listing per pattern, as the first loop of a sync gathers them. */
  function Gather(cfg: Config, patterns: seq<string>, listings: seq<seq<string>>): seq<string>
    requires |listings| == |patterns|
  {
    if patterns == [] then []
    else FilterMatches(cfg, patterns[0], listings[0]) + Gather(cfg, patterns[1..], listings[1..])
  }

  lemma {:induction false} FilterMatchesMembers(cfg: Config, pattern: string, listing: seq<string>, ns: string)
    ensures ns in FilterMatches(cfg, pattern, listing) <==> ns in listing && cfg.matches(pattern, ns)
  {
    if listing != [] {
      FilterMatchesMembers(cfg, pattern, listing[1..], ns);
      assert ns in listing <==> ns == listing[0] || ns in listing[1..];
    }
  }

  /** Whatever order each listing came in, the gathered namespaces are the selected ones. */
  lemma {:induction false} GatherSelects(cfg: Config, patterns: seq<string>, listings: seq<seq<string>>,
                                         namespaces: set<string>)
    requires |listings| == |patterns|
    requires forall i :: 0 <= i < |listings| ==> IsListing(listings[i], namespaces)
    ensures (set ns | ns in Gather(cfg, patterns, listings)) == Selected(cfg, patterns, namespaces)
  {
    if patterns != [] {
      GatherSelects(cfg, patterns[1..], listings[1..], namespaces);
      var first, rest := FilterMatches(cfg, patterns[0], listings[0]), Gather(cfg, patterns[1..], listings[1..]);
      forall ns
        ensures ns in first + rest <==> ns in Selected(cfg, patterns, namespaces)
      {
        FilterMatchesMembers(cfg, patterns[0], listings[0], ns);
        assert ns in listings[0] <==> ns in (set x | x in listings[0]);
        assert ns in rest <==> ns in Selected(cfg, patterns[1..], namespaces);
        assert forall p :: p in patterns <==> p == patterns[0] || p in patterns[1..];
      }
    }
  }

  /**
   A sync is blind to the order of every namespace listing, to the order and repetition of the patterns, and to
   several patterns selecting one namespace.
   */
  lemma SyncIsOrderBlind(cfg: Config, store: Contents, c1: Crypt, c2: Crypt, namespaces: set<string>,
                         listings1: seq<seq<string>>, listings2: seq<seq<string>>, api: Secrets)
    requires c2 == c1.(namespaces := c2.namespaces)
    requires forall p :: p in c1.namespaces <==> p in c2.namespaces
    requires |listings1| == |c1.namespaces| && |listings2| == |c2.namespaces|
    requires forall i :: 0 <= i < |listings1| ==> IsListing(listings1[i], namespaces)
    requires forall i :: 0 <= i < |listings2| ==> IsListing(listings2[i], namespaces)
    ensures SyncCrypt(cfg, store, c1, Gather(cfg, c1.namespaces, listings1), api)
         == SyncCrypt(cfg, store, c2, Gather(cfg, c2.namespaces, listings2), api)
  {
    var matched1, matched2 := Gather(cfg, c1.namespaces, listings1), Gather(cfg, c2.namespaces, listings2);
    GatherSelects(cfg, c1.namespaces, listings1, namespaces);
    GatherSelects(cfg, c2.namespaces, listings2, namespaces);
    var after1, after2 := SyncCrypt(cfg, store, c1, matched1, api), SyncCrypt(cfg, store, c2, matched2, api);
    forall id
      ensures Find(after1, id) == Find(after2, id)
    {
      SyncMeaning(cfg, store, c1, namespaces, matched1, api, id);
      SyncMeaning(cfg, store, c2, namespaces, matched2, api, id);
      PatternOrderIsIrrelevant(cfg, store, c1, c2, namespaces, id);
    }
    MapsAgree(after1, after2);
  }

  lemma PatternOrderIsIrrelevant(cfg: Config, store: Contents, c1: Crypt, c2: Crypt, namespaces: set<string>,
                                 id: SecretId)
    requires c2 == c1.(namespaces := c2.namespaces)
    requires forall p :: p in c1.namespaces <==> p in c2.namespaces
    ensures Desired(cfg, store, namespaces, c1, id) == Desired(cfg, store, namespaces, c2, id)
  {
    LastGoodIgnoresPatterns(cfg, store, c1, c2, c1.secrets, id);
    LastGoodIsLast(cfg, store, c1, c1.secrets, id);
  }

  lemma {:induction false} LastGoodIgnoresPatterns(cfg: Config, store: Contents, c1: Crypt, c2: Crypt,
                                                   defs: seq<SecretDefinition>, id: SecretId)
    requires c2 == c1.(namespaces := c2.namespaces)
    ensures LastGood(cfg, store, c1, defs, id) == LastGood(cfg, store, c2, defs, id)
  {
    if defs != [] {
      LastGoodIgnoresPatterns(cfg, store, c1, c2, defs[1..], id);
    }
  }

  /** Syncing twice is syncing once, even when the second pass gathers the namespaces in another order. */
  lemma SyncIsIdempotent(cfg: Config, store: Contents, crypt: Crypt, namespaces: set<string>, m1: seq<string>,
                         m2: seq<string>, api: Secrets)
    requires (set ns | ns in m1) == Selected(cfg, crypt.namespaces, namespaces) == (set ns | ns in m2)
    ensures SyncCrypt(cfg, store, crypt, m2, SyncCrypt(cfg, store, crypt, m1, api))
         == SyncCrypt(cfg, store, crypt, m1, api)
  {
    var once := SyncCrypt(cfg, store, crypt, m1, api);
    var twice := SyncCrypt(cfg, store, crypt, m2, once);
    forall id
      ensures Find(once, id) == Find(twice, id)
    {
      SyncMeaning(cfg, store, crypt, namespaces, m1, api, id);
      SyncMeaning(cfg, store, crypt, namespaces, m2, once, id);
    }
    MapsAgree(twice, once);
  }

  // --- Stability while a sync is under way ---------------------------------------------------------------

  /** All definitions of the name that take effect in the namespace render the same secret. */
  ghost predicate Coherent(cfg: Config, store: Contents, crypt: Crypt, id: SecretId) {
    forall d, e :: d in crypt.secrets && e in crypt.secrets
                   && IsGood(cfg, store, crypt, d, id) && IsGood(cfg, store, crypt, e, id) ==>
      Rendered(store, crypt, Task(d, id.namespace)) == Rendered(store, crypt, Task(e, id.namespace))
  }

  lemma {:induction false} TasksMembers(defs: seq<SecretDefinition>, namespaces: seq<string>, t: Task)
    ensures t in Tasks(defs, namespaces) <==> t.def in defs && t.namespace in namespaces
  {
    if defs != [] {
      TasksForMembers(defs[0], namespaces, t);
      TasksMembers(defs[1..], namespaces, t);
      assert t.def in defs <==> t.def == defs[0] || t.def in defs[1..];
    }
  }

  lemma {:induction false} TasksForMembers(def: SecretDefinition, namespaces: seq<string>, t: Task)
    ensures t in TasksFor(def, namespaces) <==> t.def == def && t.namespace in namespaces
  {
    if namespaces != [] {
      TasksForMembers(def, namespaces[1..], t);
      assert t.namespace in namespaces <==> t.namespace == namespaces[0] || t.namespace in namespaces[1..];
    }
  }

  /** The secret holds what is wanted after every prefix of the sync's tasks. */
  ghost predicate HoldsThroughout(cfg: Config, store: Contents, crypt: Crypt, ts: seq<Task>, api: Secrets,
                                  id: SecretId, want: Option<Secret>) {
    forall i :: 0 <= i <= |ts| ==> Find(RunTasks(cfg, store, crypt, api, ts[..i]), id) == want
  }

  lemma CoherentHolds(cfg: Config, store: Contents, crypt: Crypt, matched: seq<string>, api: Secrets, id: SecretId,
                      i: nat)
    requires Coherent(cfg, store, crypt, id)
    requires DesiredIn(cfg, store, crypt, id).Some? && Find(api, id) == DesiredIn(cfg, store, crypt, id)
    requires i <= |Tasks(crypt.secrets, matched)|
    ensures Find(RunTasks(cfg, store, crypt, api, Tasks(crypt.secrets, matched)[..i]), id)
         == DesiredIn(cfg, store, crypt, id)
  {
    var ts := Tasks(crypt.secrets, matched);
    RunTasksAt(cfg, store, crypt, api, ts[..i], id);
    LastEffectiveIsEffective(cfg, store, crypt, ts[..i], id);
    var t := LastEffective(cfg, store, crypt, ts[..i], id);
    if t.Some? {
      assert t.value in ts;
      TasksMembers(crypt.secrets, matched, t.value);
      LastGoodIsLast(cfg, store, crypt, crypt.secrets, id);
      assert t.value == Task(t.value.def, id.namespace);
    }
  }

  lemma HeldIsRendered(cfg: Config, store: Contents, crypt: Crypt, matched: seq<string>, api: Secrets, id: SecretId,
                       want: Option<Secret>, d: SecretDefinition)
    requires HoldsThroughout(cfg, store, crypt, Tasks(crypt.secrets, matched), api, id, want)
    requires id.namespace in matched && d in crypt.secrets && IsGood(cfg, store, crypt, d, id)
    ensures want == Some(Rendered(store, crypt, Task(d, id.namespace)))
  {
    var ts, t := Tasks(crypt.secrets, matched), Task(d, id.namespace);
    TasksMembers(crypt.secrets, matched, t);
    var i :| 0 <= i < |ts| && ts[i] == t;
    assert ts[..i + 1] == ts[..i] + [t];
    RunTasksAt(cfg, store, crypt, api, ts[..i + 1], id);
    LastEffectiveConcat(cfg, store, crypt, ts[..i], [t], id);
    assert LastEffective(cfg, store, crypt, [t], id) == Some(t);
  }

  /**
   A secret that already holds what its crypt wants keeps holding it at every moment of a new sync exactly when the
   crypt's good definitions of that name agree; with two that differ, readers see the earlier one in between.
   */
  lemma SettledDuringSync(cfg: Config, store: Contents, crypt: Crypt, namespaces: set<string>, matched: seq<string>,
                          api: Secrets, id: SecretId)
    requires (set ns | ns in matched) == Selected(cfg, crypt.namespaces, namespaces)
    requires Desired(cfg, store, namespaces, crypt, id).Some?
    requires Find(api, id) == Desired(cfg, store, namespaces, crypt, id)
    ensures HoldsThroughout(cfg, store, crypt, Tasks(crypt.secrets, matched), api, id, Find(api, id))
            <==> Coherent(cfg, store, crypt, id)
  {
    var ts := Tasks(crypt.secrets, matched);
    assert id.namespace in matched by {
      assert id.namespace in Selected(cfg, crypt.namespaces, namespaces);
    }
    if Coherent(cfg, store, crypt, id) {
      forall i | 0 <= i <= |ts|
        ensures Find(RunTasks(cfg, store, crypt, api, ts[..i]), id) == Find(api, id)
      {
        CoherentHolds(cfg, store, crypt, matched, api, id, i);
      }
    }
    if HoldsThroughout(cfg, store, crypt, ts, api, id, Find(api, id)) {
      forall d | d in crypt.secrets && IsGood(cfg, store, crypt, d, id)
        ensures Some(Rendered(store, crypt, Task(d, id.namespace))) == Find(api, id)
      {
        HeldIsRendered(cfg, store, crypt, matched, api, id, Find(api, id), d);
      }
    }
  }
}
