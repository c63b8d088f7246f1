/** The shared informer factory: one informer per type, run once, and one cache behind handlers and listers. */
module InformerFactory {
  import opened Common
  import opened Listers

  type Kind = string
  type Duration = int

  const CRYPT_TYPE: Kind := "Crypt"

  // --- Options ----------------------------------------------------------------------------------------------

  datatype FactoryOption =
    | WithCustomResync(periods: map<Kind, Duration>)
    | WithTweak(tweak: string)
    | WithNamespace(namespace: string)

  datatype Settings = Settings(namespace: string, tweak: Option<string>, custom: map<Kind, Duration>)

  const DEFAULTS := Settings("", None, map[])

  function ApplyOption(s: Settings, opt: FactoryOption): Settings {
    match opt
    case WithCustomResync(periods) => s.(custom := s.custom + periods)
    case WithTweak(tweak) => s.(tweak := Some(tweak))
    case WithNamespace(namespace) => s.(namespace := namespace)
  }

  function ApplyOptions(s: Settings, options: seq<FactoryOption>): Settings
    decreases |options|
  {
    if options == [] then s else ApplyOptions(ApplyOption(s, options[0]), options[1..])
  }

  lemma {:induction false} UnsetPeriodStays(s: Settings, options: seq<FactoryOption>, kind: Kind)
    requires forall i :: 0 <= i < |options| ==> !(options[i].WithCustomResync? && kind in options[i].periods)
    ensures Find(ApplyOptions(s, options).custom, kind) == Find(s.custom, kind)
    decreases |options|
  {
    if options != [] {
      UnsetPeriodStays(ApplyOption(s, options[0]), options[1..], kind);
    }
  }

  lemma {:induction false} UnsetNamespaceStays(s: Settings, options: seq<FactoryOption>)
    requires forall i :: 0 <= i < |options| ==> !options[i].WithNamespace?
    ensures ApplyOptions(s, options).namespace == s.namespace
    decreases |options|
  {
    if options != [] {
      UnsetNamespaceStays(ApplyOption(s, options[0]), options[1..]);
    }
  }

  lemma {:induction false} UnsetTweakStays(s: Settings, options: seq<FactoryOption>)
    requires forall i :: 0 <= i < |options| ==> !options[i].WithTweak?
    ensures ApplyOptions(s, options).tweak == s.tweak
    decreases |options|
  {
    if options != [] {
      UnsetTweakStays(ApplyOption(s, options[0]), options[1..]);
    }
  }

  /** A type's custom period is the one of the last option that names the type, wherever the others stand. */
  lemma {:induction false} LastPeriodWins(s: Settings, options: seq<FactoryOption>, kind: Kind, i: nat)
    requires i < |options| && options[i].WithCustomResync? && kind in options[i].periods
    requires forall j :: i < j < |options| ==> !(options[j].WithCustomResync? && kind in options[j].periods)
    ensures Find(ApplyOptions(s, options).custom, kind) == Some(options[i].periods[kind])
    decreases |options|
  {
    var next := ApplyOption(s, options[0]);
    if i == 0 {
      UnsetPeriodStays(next, options[1..], kind);
    } else {
      LastPeriodWins(next, options[1..], kind, i - 1);
    }
  }

  /** So does the last namespace given. */
  lemma {:induction false} LastNamespaceWins(s: Settings, options: seq<FactoryOption>, i: nat)
    requires i < |options| && options[i].WithNamespace? && forall j :: i < j < |options| ==> !options[j].WithNamespace?
    ensures ApplyOptions(s, options).namespace == options[i].namespace
    decreases |options|
  {
    var next := ApplyOption(s, options[0]);
    if i == 0 {
      UnsetNamespaceStays(next, options[1..]);
    } else {
      LastNamespaceWins(next, options[1..], i - 1);
    }
  }

  /** And the last tweak. */
  lemma {:induction false} LastTweakWins(s: Settings, options: seq<FactoryOption>, i: nat)
    requires i < |options| && options[i].WithTweak? && forall j :: i < j < |options| ==> !options[j].WithTweak?
    ensures ApplyOptions(s, options).tweak == Some(options[i].tweak)
    decreases |options|
  {
    var next := ApplyOption(s, options[0]);
    if i == 0 {
      UnsetTweakStays(next, options[1..]);
    } else {
      LastTweakWins(next, options[1..], i - 1);
    }
  }

  /** A type that no option names has no custom period; without options for them there is no namespace and no tweak. */
  lemma UnsetIsDefault(options: seq<FactoryOption>)
    ensures forall kind ::
              (forall i :: 0 <= i < |options| ==> !(options[i].WithCustomResync? && kind in options[i].periods))
              ==> kind !in ApplyOptions(DEFAULTS, options).custom
    ensures (forall i :: 0 <= i < |options| ==> !options[i].WithNamespace?) ==>
              ApplyOptions(DEFAULTS, options).namespace == ""
    ensures (forall i :: 0 <= i < |options| ==> !options[i].WithTweak?) ==>
              ApplyOptions(DEFAULTS, options).tweak == None
  {
    forall kind | forall i :: 0 <= i < |options| ==> !(options[i].WithCustomResync? && kind in options[i].periods)
      ensures kind !in ApplyOptions(DEFAULTS, options).custom
    {
      UnsetPeriodStays(DEFAULTS, options, kind);
    }
    if forall i :: 0 <= i < |options| ==> !options[i].WithNamespace? {
      UnsetNamespaceStays(DEFAULTS, options);
    }
    if forall i :: 0 <= i < |options| ==> !options[i].WithTweak? {
      UnsetTweakStays(DEFAULTS, options);
    }
  }

  // --- The factory as a state -------------------------------------------------------------------------------

  /** How an informer was made: for whom, and with which period. */
  datatype Made = Made(maker: string, resync: Duration)

  datatype Factory = Factory(
    defaultResync: Duration,
    custom: map<Kind, Duration>,
    known: map<Kind, Made>,
    started: set<Kind>,
    runs: map<Kind, nat>)

  function Period(f: Factory, kind: Kind): Duration {
    if kind in f.custom then f.custom[kind] else f.defaultResync
  }

  function OnInformerFor(f: Factory, kind: Kind, maker: string): Factory {
    if kind in f.known then f
    else f.(known := f.known[kind := Made(maker, Period(f, kind))], runs := f.runs[kind := 0])
  }

  function OnStart(f: Factory): Factory {
    f.(started := f.started + f.known.Keys,
       runs := map k | k in f.runs :: f.runs[k] + (if k in f.known && k !in f.started then 1 else 0))
  }

  datatype Call = InformerFor(kind: Kind, maker: string) | Start | WaitForCacheSync

  function Perform(f: Factory, call: Call): Factory {
    match call
    case InformerFor(kind, maker) => OnInformerFor(f, kind, maker)
    case Start => OnStart(f)
    case WaitForCacheSync => f
  }

  /** The calls happen one after the other: each holds the factory's lock. */
  function PerformAll(f: Factory, calls: seq<Call>): Factory {
    if calls == [] then f else Perform(PerformAll(f, calls[..|calls| - 1]), calls[|calls| - 1])
  }

  function NewFactory(defaultResync: Duration, custom: map<Kind, Duration>): Factory {
    Factory(defaultResync, custom, map[], {}, map[])
  }

  ghost predicate AsksFor(call: Call, kind: Kind) {
    call.InformerFor? && call.kind == kind
  }

  /** Some call asked for the type, and a later one started the factory. */
  ghost predicate AskedThenStarted(calls: seq<Call>, kind: Kind) {
    exists i, j :: 0 <= i < j < |calls| && AsksFor(calls[i], kind) && calls[j].Start?
  }

  lemma {:induction false} SettingsStay(f: Factory, calls: seq<Call>)
    ensures PerformAll(f, calls).defaultResync == f.defaultResync && PerformAll(f, calls).custom == f.custom
  {
    if calls != [] {
      SettingsStay(f, calls[..|calls| - 1]);
    }
  }

  /** Over every sequence of calls a type is known exactly when somebody asked for it. */
  lemma {:induction false} KnownWhenAsked(defaultResync: Duration, custom: map<Kind, Duration>, calls: seq<Call>,
                                          kind: Kind)
    ensures kind in PerformAll(NewFactory(defaultResync, custom), calls).known
            <==> exists i :: 0 <= i < |calls| && calls[i].InformerFor? && calls[i].kind == kind
  {
    if calls != [] {
      var n := |calls| - 1;
      var earlier := calls[..n];
      KnownWhenAsked(defaultResync, custom, earlier, kind);
      assert forall i :: 0 <= i < n ==> earlier[i] == calls[i];
      if exists i :: 0 <= i < n && AsksFor(earlier[i], kind) {
        var i :| 0 <= i < n && AsksFor(earlier[i], kind);
        assert AsksFor(calls[i], kind);
      }
      if exists i :: 0 <= i < |calls| && AsksFor(calls[i], kind) {
        var i :| 0 <= i < |calls| && AsksFor(calls[i], kind);
        assert i < n ==> AsksFor(earlier[i], kind);
      }
    }
  }

  /**
   Over every sequence of calls: a type's informer is the one made at the first call that asks for it, with the custom
   period if there is one and the default otherwise.
   */
  lemma {:induction false} FirstInformerStays(defaultResync: Duration, custom: map<Kind, Duration>, calls: seq<Call>,
                                              kind: Kind, i: nat)
    requires i < |calls| && calls[i].InformerFor? && calls[i].kind == kind
    requires forall j :: 0 <= j < i ==> !(calls[j].InformerFor? && calls[j].kind == kind)
    ensures Find(PerformAll(NewFactory(defaultResync, custom), calls).known, kind)
         == Some(Made(calls[i].maker, if kind in custom then custom[kind] else defaultResync))
  {
    var n := |calls| - 1;
    SettingsStay(NewFactory(defaultResync, custom), calls[..n]);
    if i < n {
      FirstInformerStays(defaultResync, custom, calls[..n], kind, i);
    } else {
      KnownWhenAsked(defaultResync, custom, calls[..n], kind);
    }
  }

  /**
   Over every sequence of calls: started types are known, and an informer has been run exactly once if some Start came
   after the type was asked for, and never otherwise.
   */
  lemma {:induction false} RunsExactlyOnce(defaultResync: Duration, custom: map<Kind, Duration>, calls: seq<Call>,
                                           kind: Kind)
    ensures var f := PerformAll(NewFactory(defaultResync, custom), calls);
            && f.runs.Keys == f.known.Keys && f.started <= f.known.Keys
            && (kind in f.started
                <==> exists i, j :: 0 <= i < j < |calls| && AsksFor(calls[i], kind) && calls[j].Start?)
            && (kind in f.known ==> f.runs[kind] == if kind in f.started then 1 else 0)
  {
    if calls != [] {
      var n := |calls| - 1;
      RunsExactlyOnce(defaultResync, custom, calls[..n], kind);
      KnownWhenAsked(defaultResync, custom, calls[..n], kind);
      AskedGrows(calls, kind);
    }
  }

  lemma AskedGrows(calls: seq<Call>, kind: Kind)
    requires calls != []
    ensures var earlier := calls[..|calls| - 1];
            AskedThenStarted(calls, kind)
            <==> AskedThenStarted(earlier, kind)
                 || (calls[|calls| - 1].Start? && exists i :: 0 <= i < |earlier| && AsksFor(earlier[i], kind))
  {
    var n := |calls| - 1;
    var earlier := calls[..n];
    assert forall i :: 0 <= i < n ==> earlier[i] == calls[i];
    if AskedThenStarted(earlier, kind) {
      var i, j :| 0 <= i < j < n && AsksFor(earlier[i], kind) && earlier[j].Start?;
      assert AsksFor(calls[i], kind) && calls[j].Start?;
    }
    if calls[n].Start? && exists i :: 0 <= i < n && AsksFor(earlier[i], kind) {
      var i :| 0 <= i < n && AsksFor(earlier[i], kind);
      assert AsksFor(calls[i], kind) && calls[n].Start?;
    }
    if AskedThenStarted(calls, kind) {
      var i, j :| 0 <= i < j < |calls| && AsksFor(calls[i], kind) && calls[j].Start?;
      assert AsksFor(earlier[i], kind);
      assert j < n ==> earlier[j].Start?;
    }
  }

  lemma ModelsAgree(a: Factory, b: Factory)
    requires a.defaultResync == b.defaultResync && a.custom == b.custom && a.started == b.started
    requires a.known.Keys == b.known.Keys && forall k :: k in a.known ==> a.known[k] == b.known[k]
    requires a.runs.Keys == b.runs.Keys && forall k :: k in a.runs ==> a.runs[k] == b.runs[k]
    ensures a == b
  {
    assert a.known == b.known && a.runs == b.runs;
  }

  /** What starting comes to, part by part. */
  lemma StartedIs(before: Factory, after: Factory)
    requires after.defaultResync == before.defaultResync && after.custom == before.custom && after.known == before.known
    requires after.started == before.started + before.known.Keys
    requires after.runs.Keys == before.runs.Keys == before.known.Keys
    requires forall k :: k in before.runs ==>
               after.runs[k] == before.runs[k] + (if k in before.known && k !in before.started then 1 else 0)
    ensures after == OnStart(before)
  {
    assert after.runs == OnStart(before).runs;
  }

  // --- The factory as the object it is ------------------------------------------------------------------------

  class Informer {
    const made: Made
    const indexer: Indexer
    var runs: nat
    var synced: bool
    var handlers: nat

    constructor (made: Made)
      ensures this.made == made && runs == 0 && !synced && handlers == 0 && fresh(indexer)
    {
      this.made, runs, synced, handlers := made, 0, false, 0;
      indexer := new Indexer();
    }

    method Run()
      modifies this`runs
      ensures runs == old(runs) + 1
    {
      runs := runs + 1;
    }

    /** Polls until the cache has synced or the wait is stopped: only the latter gives up on a cache that is behind. */
    method WaitSynced(stopped: bool) returns (ok: bool)
      modifies this`synced
      ensures ok == synced && (!stopped ==> synced) && (stopped ==> synced == old(synced))
    {
      if !stopped {
        synced := true;
      }
      return synced;
    }

    method AddEventHandler()
      modifies this`handlers
      ensures handlers == old(handlers) + 1
    {
      handlers := handlers + 1;
    }
  }

  /** Waits one after the other; `stopped` says whose wait the stop cuts short, as it may arrive at any time. */
  method WaitAll(started: map<Kind, Informer>, stopped: Kind -> bool) returns (res: map<Kind, bool>)
    requires forall k, l :: k in started && l in started && started[k] == started[l] ==> k == l
    modifies started.Values`synced
    ensures res.Keys == started.Keys
    ensures forall k :: k in res ==> res[k] == started[k].synced && (!stopped(k) ==> res[k])
    ensures forall k :: k in started && stopped(k) ==> started[k].synced == old(started[k].synced)
  {
    res := map[];
    var unseen := started.Keys;
    while unseen != {}
      invariant unseen <= started.Keys
      invariant res.Keys == started.Keys - unseen
      invariant forall k :: k in res ==> res[k] == started[k].synced && (!stopped(k) ==> res[k])
      invariant forall k :: k in started && stopped(k) ==> started[k].synced == old(started[k].synced)
      decreases unseen
    {
      var kind :| kind in unseen;
      var synced := started[kind].WaitSynced(stopped(kind));
      res := res[kind := synced];
      unseen := unseen - {kind};
    }
  }

  class SharedInformerFactory {
    var defaultResync: Duration
    var settings: Settings
    var informers: map<Kind, Informer>
    var startedInformers: map<Kind, bool>

    /** One object per type, and only started types are marked. */
    ghost predicate Valid()
      reads this
    {
      && (forall k, l :: k in informers && l in informers && informers[k] == informers[l] ==> k == l)
      && (forall k :: k in startedInformers ==> k in informers && startedInformers[k])
    }

    ghost function Model(): (f: Factory)
      reads this, informers.Values
      ensures f.defaultResync == defaultResync && f.custom == settings.custom && f.started == startedInformers.Keys
      ensures f.known.Keys == f.runs.Keys == informers.Keys
      ensures forall k :: k in informers ==> f.known[k] == informers[k].made && f.runs[k] == informers[k].runs
    {
      Factory(defaultResync, settings.custom,
              map k | k in informers :: informers[k].made,
              startedInformers.Keys,
              map k | k in informers :: informers[k].runs)
    }

    constructor (defaultResync: Duration, options: seq<FactoryOption>)
      ensures Valid() && informers == map[]
      ensures settings == ApplyOptions(DEFAULTS, options) && this.defaultResync == defaultResync
      ensures forall kind ::
                (forall i :: 0 <= i < |options| ==> !(options[i].WithCustomResync? && kind in options[i].periods))
                ==> kind !in settings.custom
      ensures (forall i :: 0 <= i < |options| ==> !options[i].WithNamespace?) ==> settings.namespace == ""
      ensures (forall i :: 0 <= i < |options| ==> !options[i].WithTweak?) ==> settings.tweak == None
      ensures Model() == NewFactory(defaultResync, settings.custom)
    {
      this.defaultResync, informers, startedInformers, settings := defaultResync, map[], map[], DEFAULTS;
      new;
      UnsetIsDefault(options);
      for i := 0 to |options|
        invariant Valid() && informers == map[] && startedInformers == map[] && this.defaultResync == defaultResync
        invariant ApplyOptions(settings, options[i..]) == ApplyOptions(DEFAULTS, options)
      {
        assert options[i..][1..] == options[i + 1..];
        settings := ApplyOption(settings, options[i]);
      }
    }

    method Start()
      requires Valid()
      modifies this`startedInformers, informers.Values
      ensures Valid() && Model() == OnStart(old(Model()))
      ensures startedInformers.Keys == old(startedInformers.Keys) + informers.Keys
      ensures forall k :: k in informers ==>
                informers[k].runs == old(informers[k].runs) + (if k in old(startedInformers) then 0 else 1)
    {
      ghost var before := Model();
      RunUnstarted();
      StartedIs(before, Model());
    }

    /** Runs every informer that has not been started yet, and marks it. */
    method RunUnstarted()
      requires Valid()
      modifies this`startedInformers, informers.Values
      ensures Valid() && startedInformers.Keys == old(startedInformers.Keys) + informers.Keys
      ensures forall k :: k in informers ==>
                informers[k].runs == old(informers[k].runs) + (if k in old(startedInformers) then 0 else 1)
    {
      var unseen := informers.Keys;
      while unseen != {}
        invariant unseen <= informers.Keys
        invariant forall k :: k in startedInformers ==> k in informers && startedInformers[k]
        invariant startedInformers.Keys == old(startedInformers.Keys) + (informers.Keys - unseen)
        invariant forall k :: k in informers ==>
                    informers[k].runs == old(informers[k].runs)
                                         + (if k in unseen || k in old(startedInformers) then 0 else 1)
        decreases unseen
      {
        var kind :| kind in unseen;
        if kind !in startedInformers || !startedInformers[kind] {
          informers[kind].Run();
          startedInformers := startedInformers[kind := true];
        }
        unseen := unseen - {kind};
      }
    }

    /** The started informers, copied while the lock is held. */
    method Started() returns (started: map<Kind, Informer>)
      requires Valid()
      ensures started.Keys == startedInformers.Keys
      ensures forall k :: k in started ==> k in informers && started[k] == informers[k]
    {
      started := map[];
      var unseen := informers.Keys;
      while unseen != {}
        invariant unseen <= informers.Keys
        invariant started.Keys == startedInformers.Keys * (informers.Keys - unseen)
        invariant forall k :: k in started ==> k in informers && started[k] == informers[k]
        decreases unseen
      {
        var kind :| kind in unseen;
        if kind in startedInformers && startedInformers[kind] {
          started := started[kind := informers[kind]];
        }
        unseen := unseen - {kind};
      }
      assert startedInformers.Keys * informers.Keys == startedInformers.Keys;
    }

    /**
     Waits for each started informer in turn and reports exactly the started types: as synced those whose wait the stop
     did not cut short, and the others as they are. Informers that were not started are not waited for.
     */
    method WaitForCacheSync(stopped: Kind -> bool) returns (res: map<Kind, bool>)
      requires Valid()
      modifies informers.Values`synced
      ensures Valid() && Model() == old(Model())
      ensures res.Keys == startedInformers.Keys
      ensures forall k :: k in res ==> k in informers && res[k] == informers[k].synced && (!stopped(k) ==> res[k])
      ensures forall k :: k in informers && (stopped(k) || k !in startedInformers) ==>
                informers[k].synced == old(informers[k].synced)
    {
      var started := Started();
      ghost var before := Model();
      res := WaitAll(started, stopped);
      ModelsAgree(before, Model());
    }

    /** The informer of the type; made, with the type's period, only if there is none yet. */
    method InformerFor(kind: Kind, maker: string) returns (informer: Informer)
      requires Valid()
      modifies this`informers
      ensures Valid() && kind in informers && informer == informers[kind]
      ensures Model() == OnInformerFor(old(Model()), kind, maker)
      ensures kind in old(informers) ==> informers == old(informers)
      ensures kind !in old(informers) ==>
                && fresh(informer) && fresh(informer.indexer) && informer.handlers == 0 && informer.runs == 0
                && informer.made == Made(maker,
                    if kind in settings.custom then settings.custom[kind] else defaultResync)
                && informers == old(informers)[kind := informer]
    {
      if kind in informers {
        return informers[kind];
      }
      var resyncPeriod := defaultResync;
      if kind in settings.custom {
        resyncPeriod := settings.custom[kind];
      }
      informer := new Informer(Made(maker, resyncPeriod));
      informers := informers[kind := informer];
      assert Model().known == OnInformerFor(old(Model()), kind, maker).known;
      assert Model().runs == OnInformerFor(old(Model()), kind, maker).runs;
    }
  }

  // --- The crypt informer over the factory -----------------------------------------------------------------------

  datatype CryptInformer = CryptInformer(factory: SharedInformerFactory)
  {
    method Informer() returns (informer: Informer)
      requires factory.Valid()
      modifies factory`informers
      ensures factory.Valid() && CRYPT_TYPE in factory.informers && informer == factory.informers[CRYPT_TYPE]
      ensures CRYPT_TYPE in old(factory.informers) ==> factory.informers == old(factory.informers)
      ensures CRYPT_TYPE !in old(factory.informers) ==>
                && fresh(informer) && informer.handlers == 0 && informer.runs == 0
                && informer.made.resync
                    == (if CRYPT_TYPE in factory.settings.custom then factory.settings.custom[CRYPT_TYPE]
                                            else factory.defaultResync)
                && factory.informers == old(factory.informers)[CRYPT_TYPE := informer]
    {
      informer := factory.InformerFor(CRYPT_TYPE, "defaultInformer");
    }

    method Lister() returns (lister: CryptLister)
      requires factory.Valid()
      modifies factory`informers
      ensures factory.Valid() && CRYPT_TYPE in factory.informers
      ensures lister == CryptLister(factory.informers[CRYPT_TYPE].indexer)
      ensures CRYPT_TYPE in old(factory.informers) ==> factory.informers == old(factory.informers)
      ensures CRYPT_TYPE !in old(factory.informers) ==>
                fresh(factory.informers[CRYPT_TYPE])
                && factory.informers == old(factory.informers)[CRYPT_TYPE := factory.informers[CRYPT_TYPE]]
    {
      var informer := Informer();
      lister := CryptLister(informer.indexer);
    }

    /**
     The wiring a new controller does. The informer that gets the event handlers and the index the controller reads
     are one: the factory's informer of the type, whoever asked for it first.
     */
    method Wire() returns (handled: Informer, lister: CryptLister)
      requires factory.Valid()
      modifies factory`informers, (set k | k in factory.informers :: factory.informers[k])`handlers
      ensures factory.Valid() && CRYPT_TYPE in factory.informers
      ensures handled == factory.informers[CRYPT_TYPE] && lister.indexer == handled.indexer
      ensures CRYPT_TYPE in old(factory.informers) ==>
                factory.informers == old(factory.informers)
                && handled.handlers == old(factory.informers[CRYPT_TYPE].handlers) + 1
      ensures CRYPT_TYPE !in old(factory.informers) ==> fresh(handled) && handled.handlers == 1
    {
      var synced := Informer();
      lister := Lister();
      handled := Informer();
      assert handled == synced;
      handled.AddEventHandler();
    }
  }
}
