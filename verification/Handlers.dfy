/** What the event handlers put on the queue, as functions of the listings and caches they read. */
module Handlers {
  import opened Common
  import opened Resources
  import opened QueueKeys
  import opened WorkQueues
  import opened Reconcile

  // --- Namespace added --------------------------------------------------------------------------------

  predicate SelectsNamespace(cfg: Config, crypt: Crypt, name: string) {
    MatchesSome(cfg, crypt.namespaces, name)
  }

  /** The first crypt of a list with a pattern that matches: the rest of the list is not looked at. */
  function FirstMatch(cfg: Config, list: seq<Crypt>, name: string): Option<Crypt> {
    if list == [] then None
    else if SelectsNamespace(cfg, list[0], name) then Some(list[0])
    else FirstMatch(cfg, list[1..], name)
  }

  /** One entry at most for each listed home namespace, in listing order. */
  function CryptsForNamespace(cfg: Config, homes: seq<string>, lists: map<string, seq<Crypt>>, name: string): seq<Crypt>
    requires forall h :: h in homes ==> h in lists
  {
    if homes == [] then
      []
    else
      var first := FirstMatch(cfg, lists[homes[0]], name);
      (if first.Some? then [first.value] else []) + CryptsForNamespace(cfg, homes[1..], lists, name)
  }

  function EnqueueAll(q: Queue<string>, crypts: seq<Crypt>): Queue<string>
    decreases |crypts|
  {
    if crypts == [] then q else EnqueueAll(AddRateLimited(q, KeyOf(crypts[0])), crypts[1..])
  }

  lemma {:induction false} EnqueueAllKeys(q: Queue<string>, crypts: seq<Crypt>)
    ensures q.closed ==> EnqueueAll(q, crypts) == q
    ensures !q.closed ==> EnqueueAll(q, crypts) == q.(delayed := q.delayed + set c | c in crypts :: KeyOf(c))
    decreases |crypts|
  {
    if crypts == [] {
      assert q.delayed + (set c | c in crypts :: KeyOf(c)) == q.delayed;
    } else {
      EnqueueAllKeys(AddRateLimited(q, KeyOf(crypts[0])), crypts[1..]);
      assert forall c :: c in crypts <==> c == crypts[0] || c in crypts[1..];
      assert (set c | c in crypts :: KeyOf(c)) == {KeyOf(crypts[0])} + set c | c in crypts[1..] :: KeyOf(c);
      if !q.closed {
        assert q.delayed + (set c | c in crypts :: KeyOf(c))
            == q.delayed + {KeyOf(crypts[0])} + set c | c in crypts[1..] :: KeyOf(c);
      }
    }
  }

  lemma {:induction false} EnqueueAllConcat(q: Queue<string>, a: seq<Crypt>, b: seq<Crypt>)
    ensures EnqueueAll(q, a + b) == EnqueueAll(EnqueueAll(q, a), b)
    decreases |a|
  {
    if a == [] {
      assert a + b == b;
    } else {
      assert (a + b)[1..] == a[1..] + b;
      EnqueueAllConcat(AddRateLimited(q, KeyOf(a[0])), a[1..], b);
    }
  }

  /** The home listing and the per-home crypt listings show exactly what the two caches hold. */
  ghost predicate ShowsCaches(homes: seq<string>, lists: map<string, seq<Crypt>>, namespaces: set<string>,
                              cache: map<string, Crypt>) {
    && IsListing(homes, namespaces)
    && forall h :: h in homes ==> h in lists && IsListing(lists[h], CryptsIn(cache, h))
  }

  ghost function CryptsIn(cache: map<string, Crypt>, home: string): set<Crypt> {
    set k | k in cache && cache[k].namespace == home :: cache[k]
  }

  /** All crypts a new namespace concerns, as far as their own namespace is listed. */
  ghost function ConcernedBy(cfg: Config, namespaces: set<string>, cache: map<string, Crypt>,
                             name: string): set<Crypt> {
    set k | k in cache && cache[k].namespace in namespaces && SelectsNamespace(cfg, cache[k], name) :: cache[k]
  }

  lemma {:induction false} FirstMatchIsFirst(cfg: Config, list: seq<Crypt>, name: string)
    ensures var r := FirstMatch(cfg, list, name);
            && (r.Some? ==> exists i :: 0 <= i < |list| && list[i] == r.value && SelectsNamespace(cfg, list[i], name)
                                        && forall j :: 0 <= j < i ==> !SelectsNamespace(cfg, list[j], name))
            && (r.None? ==> forall c :: c in list ==> !SelectsNamespace(cfg, c, name))
  {
    if list != [] && !SelectsNamespace(cfg, list[0], name) {
      FirstMatchIsFirst(cfg, list[1..], name);
      assert forall j :: 0 < j < |list| ==> list[j] == list[1..][j - 1];
      var r := FirstMatch(cfg, list[1..], name);
      if r.Some? {
        var i :| 0 <= i < |list[1..]| && list[1..][i] == r.value && SelectsNamespace(cfg, list[1..][i], name)
                 && forall j :: 0 <= j < i ==> !SelectsNamespace(cfg, list[1..][j], name);
        assert list[i + 1] == r.value;
      }
    }
  }

  lemma {:induction false} CryptsForNamespaceMembers(cfg: Config, homes: seq<string>, lists: map<string, seq<Crypt>>,
                                                     name: string, c: Crypt)
    requires forall h :: h in homes ==> h in lists
    ensures c in CryptsForNamespace(cfg, homes, lists, name)
            <==> exists h :: h in homes && FirstMatch(cfg, lists[h], name) == Some(c)
  {
    if homes != [] {
      CryptsForNamespaceMembers(cfg, homes[1..], lists, name, c);
      assert forall h :: h in homes <==> h == homes[0] || h in homes[1..];
    }
  }

  /** All crypts a new namespace concerns, wherever they live. */
  ghost function Selecting(cfg: Config, cache: map<string, Crypt>, name: string): set<Crypt> {
    set k | k in cache && SelectsNamespace(cfg, cache[k], name) :: cache[k]
  }

  /** Nobody shares a home namespace with another crypt that wants the new namespace. */
  ghost predicate OneConcernedPerHome(cfg: Config, namespaces: set<string>, cache: map<string, Crypt>, name: string) {
    var concerned := ConcernedBy(cfg, namespaces, cache, name);
    forall c, d :: c in concerned && d in concerned && c.namespace == d.namespace ==> c == d
  }

  /** Every crypt that selects the namespace has its own namespace cached, and is alone there in selecting it. */
  ghost predicate EachConcernedIsFirst(cfg: Config, namespaces: set<string>, cache: map<string, Crypt>, name: string) {
    && (forall k :: k in cache && SelectsNamespace(cfg, cache[k], name) ==> cache[k].namespace in namespaces)
    && OneConcernedPerHome(cfg, namespaces, cache, name)
  }

  /**
   A namespace addition enqueues only crypts it concerns, some crypt whenever it concerns any in a listed
   namespace, and all those of listed namespaces exactly when no two of them live in one namespace.
   */
  lemma NamespaceAddCoverage(cfg: Config, homes: seq<string>, lists: map<string, seq<Crypt>>, namespaces: set<string>,
                             cache: map<string, Crypt>, name: string)
    requires ShowsCaches(homes, lists, namespaces, cache)
    ensures var enqueued := set c | c in CryptsForNamespace(cfg, homes, lists, name);
            var concerned := ConcernedBy(cfg, namespaces, cache, name);
            && enqueued <= concerned
            && (enqueued == {} <==> concerned == {})
            && (enqueued == concerned <==> OneConcernedPerHome(cfg, namespaces, cache, name))
  {
    var enqueued := set c | c in CryptsForNamespace(cfg, homes, lists, name);
    var concerned := ConcernedBy(cfg, namespaces, cache, name);
    forall c
      ensures c in enqueued ==>
                c in concerned && c.namespace in homes && FirstMatch(cfg, lists[c.namespace], name) == Some(c)
    {
      CryptsForNamespaceMembers(cfg, homes, lists, name, c);
      if c in enqueued {
        var h :| h in homes && FirstMatch(cfg, lists[h], name) == Some(c);
        FirstMatchIsFirst(cfg, lists[h], name);
        InListing(lists[h], CryptsIn(cache, h), c);
        InListing(homes, namespaces, h);
      }
    }
    forall c | c in concerned
      ensures c.namespace in homes
      ensures var first := FirstMatch(cfg, lists[c.namespace], name);
              first.Some? && first.value in enqueued && first.value.namespace == c.namespace
    {
      var h := c.namespace;
      InListing(homes, namespaces, h);
      InListing(lists[h], CryptsIn(cache, h), c);
      FirstMatchIsFirst(cfg, lists[h], name);
      var first := FirstMatch(cfg, lists[h], name).value;
      InListing(lists[h], CryptsIn(cache, h), first);
      CryptsForNamespaceMembers(cfg, homes, lists, name, first);
    }
    if enqueued == concerned {
      forall c, d | c in concerned && d in concerned && c.namespace == d.namespace
        ensures c == d
      {
        assert c in enqueued && d in enqueued;
      }
    }
  }

  /**
   A namespace addition enqueues every cached crypt that selects it exactly when each of them has its own namespace
   in the cache and shares it with no other: one missing home or one shared home and somebody is passed over.
   */
  lemma NobodyIsPassedOverIff(cfg: Config, homes: seq<string>, lists: map<string, seq<Crypt>>,
                              namespaces: set<string>, cache: map<string, Crypt>, name: string)
    requires ShowsCaches(homes, lists, namespaces, cache)
    ensures (set c | c in CryptsForNamespace(cfg, homes, lists, name)) == Selecting(cfg, cache, name)
            <==> EachConcernedIsFirst(cfg, namespaces, cache, name)
  {
    NamespaceAddCoverage(cfg, homes, lists, namespaces, cache, name);
    var enqueued := set c | c in CryptsForNamespace(cfg, homes, lists, name);
    var concerned, selecting := ConcernedBy(cfg, namespaces, cache, name), Selecting(cfg, cache, name);
    assert concerned <= selecting;
    if enqueued == selecting {
      forall k | k in cache && SelectsNamespace(cfg, cache[k], name)
        ensures cache[k].namespace in namespaces
      {
        assert cache[k] in enqueued && cache[k] in concerned;
      }
    }
  }

  lemma InListing<T>(listing: seq<T>, members: set<T>, x: T)
    requires IsListing(listing, members)
    ensures x in listing <==> x in members
  {
    assert x in listing <==> x in (set y | y in listing);
  }

  // --- Secret deleted ---------------------------------------------------------------------------------

  /** The cached crypt of the owner's name in the first listed namespace that has one. */
  function OwnerScan(cache: map<string, Crypt>, listed: seq<string>, name: string): Option<Crypt> {
    if listed == [] then None
    else OrElse(Find(cache, IndexKey(listed[0], name)), OwnerScan(cache, listed[1..], name))
  }

  /** The crypt a deleted secret wakes, if any: its controller must be a crypt, found by name alone. */
  function OwnerOfDeleted(cache: map<string, Crypt>, listed: seq<string>, secret: Secret): Option<Crypt> {
    var owner := ControllerOf(secret.owners);
    if owner.None? || owner.value.kind != CRYPT_KIND then None
    else OwnerScan(cache, listed, owner.value.name)
  }

  ghost predicate HasCrypt(cache: map<string, Crypt>, home: string, name: string) {
    IndexKey(home, name) in cache
  }

  lemma {:induction false} OwnerScanIsFirst(cache: map<string, Crypt>, listed: seq<string>, name: string)
    ensures var r := OwnerScan(cache, listed, name);
            && (r.Some? ==> exists i :: 0 <= i < |listed| && HasCrypt(cache, listed[i], name)
                                        && r.value == cache[IndexKey(listed[i], name)]
                                        && forall j :: 0 <= j < i ==> !HasCrypt(cache, listed[j], name))
            && (r.None? ==> forall h :: h in listed ==> !HasCrypt(cache, h, name))
  {
    if listed != [] && !HasCrypt(cache, listed[0], name) {
      OwnerScanIsFirst(cache, listed[1..], name);
      assert forall j :: 0 < j < |listed| ==> listed[j] == listed[1..][j - 1];
      var r := OwnerScan(cache, listed[1..], name);
      if r.Some? {
        var i :| 0 <= i < |listed[1..]| && HasCrypt(cache, listed[1..][i], name)
                 && r.value == cache[IndexKey(listed[1..][i], name)]
                 && forall j :: 0 <= j < i ==> !HasCrypt(cache, listed[1..][j], name);
        assert listed[i + 1] == listed[1..][i];
      }
    }
  }

  /** The listing shows the crypt's namespace, and before it no namespace with a cached crypt of the same name. */
  ghost predicate ListedFirst(cache: map<string, Crypt>, listed: seq<string>, crypt: Crypt) {
    exists i :: 0 <= i < |listed| && listed[i] == crypt.namespace
                && forall j :: 0 <= j < i ==> !HasCrypt(cache, listed[j], crypt.name)
  }

  /**
   The deletion of a secret wakes the given cached crypt exactly when a crypt of its name controls the secret and no
   namespace listed before the crypt's own has a crypt of that name.
   */
  lemma DeletedSecretWakes(cache: map<string, Crypt>, listed: seq<string>, secret: Secret, crypt: Crypt)
    requires ValidCache(cache) && KeyOf(crypt) in cache && cache[KeyOf(crypt)] == crypt
    ensures OwnerOfDeleted(cache, listed, secret) == Some(crypt)
            <==> ControlledBy(secret, crypt.name) && ListedFirst(cache, listed, crypt)
  {
    var owner := ControllerOf(secret.owners);
    if owner.Some? && owner.value.kind == CRYPT_KIND {
      OwnerScanIsFirst(cache, listed, owner.value.name);
      if OwnerOfDeleted(cache, listed, secret) == Some(crypt) {
        FoundIsListedFirst(cache, listed, owner.value.name, crypt);
      }
      if owner.value.name == crypt.name && ListedFirst(cache, listed, crypt) {
        ListedFirstIsFound(cache, listed, crypt);
      }
    }
  }

  lemma FoundIsListedFirst(cache: map<string, Crypt>, listed: seq<string>, name: string, crypt: Crypt)
    requires ValidCache(cache) && KeyOf(crypt) in cache && cache[KeyOf(crypt)] == crypt
    requires OwnerScan(cache, listed, name) == Some(crypt)
    ensures name == crypt.name && ListedFirst(cache, listed, crypt)
  {
    OwnerScanIsFirst(cache, listed, name);
    var i :| 0 <= i < |listed| && HasCrypt(cache, listed[i], name) && crypt == cache[IndexKey(listed[i], name)]
             && forall j :: 0 <= j < i ==> !HasCrypt(cache, listed[j], name);
    IndexKeyOfCrypt(listed[i], name, crypt);
  }

  lemma ListedFirstIsFound(cache: map<string, Crypt>, listed: seq<string>, crypt: Crypt)
    requires ValidCache(cache) && KeyOf(crypt) in cache && cache[KeyOf(crypt)] == crypt
    requires ListedFirst(cache, listed, crypt)
    ensures OwnerScan(cache, listed, crypt.name) == Some(crypt)
  {
    OwnerScanIsFirst(cache, listed, crypt.name);
    var k :| 0 <= k < |listed| && listed[k] == crypt.namespace
             && forall j :: 0 <= j < k ==> !HasCrypt(cache, listed[j], crypt.name);
    assert HasCrypt(cache, listed[k], crypt.name);
    var r := OwnerScan(cache, listed, crypt.name);
    var i :| 0 <= i < |listed| && HasCrypt(cache, listed[i], crypt.name)
             && r.value == cache[IndexKey(listed[i], crypt.name)]
             && forall j :: 0 <= j < i ==> !HasCrypt(cache, listed[j], crypt.name);
    assert i == k;
  }

  /** Only one home and name file under the key of a well-named crypt. */
  lemma IndexKeyOfCrypt(home: string, name: string, crypt: Crypt)
    requires WellNamed(crypt) && IndexKey(home, name) == KeyOf(crypt)
    ensures home == crypt.namespace && name == crypt.name
  {
    var s := KeyOf(crypt);
    forall i | 0 <= i < |s| && i != |crypt.namespace|
      ensures s[i] != '/'
    {
      assert i < |crypt.namespace| ==> s[i] == crypt.namespace[i];
      assert i > |crypt.namespace| ==> s[i] == crypt.name[i - |crypt.namespace| - 1];
    }
    assert s[|home|] == '/';
    assert home == s[..|home|] && name == s[|home| + 1..];
    assert crypt.namespace == s[..|home|] && crypt.name == s[|home| + 1..];
  }

  /**
   With crypt names unique in the cache and the listing showing every cached crypt's namespace, the deletion of
   a secret that was built for a cached crypt always wakes that crypt.
   */
  lemma ParentIsWoken(cache: map<string, Crypt>, listed: seq<string>, secret: Secret, crypt: Crypt)
    requires ValidCache(cache) && KeyOf(crypt) in cache && cache[KeyOf(crypt)] == crypt
    requires ControlledBy(secret, crypt.name)
    requires crypt.namespace in listed
    requires forall k :: k in cache && cache[k].name == crypt.name ==> k == KeyOf(crypt)
    ensures OwnerOfDeleted(cache, listed, secret) == Some(crypt)
  {
    OwnerScanIsFirst(cache, listed, crypt.name);
    assert HasCrypt(cache, crypt.namespace, crypt.name);
    var r := OwnerScan(cache, listed, crypt.name);
    var i :| 0 <= i < |listed| && HasCrypt(cache, listed[i], crypt.name)
             && r.value == cache[IndexKey(listed[i], crypt.name)];
    var found := cache[IndexKey(listed[i], crypt.name)];
    IndexKeyOfCrypt(listed[i], crypt.name, found);
  }
}
