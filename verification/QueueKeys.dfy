/**
 Work-queue keys: how a crypt is named when it is queued, how a worker takes the name apart
 again, and which index entry the lister then asks for.
 */
module QueueKeys {
  import opened Common
  import opened Resources

  predicate SlashFree(s: string) {
    '/' !in s
  }

  /** Names the API server accepts for a crypt: no slashes, and always inside a namespace. */
  predicate WellNamed(crypt: Crypt) {
    SlashFree(crypt.namespace) && SlashFree(crypt.name) && crypt.namespace != ""
  }

  /** The key under which an object is queued and indexed. */
  function MetaKey(namespace: string, name: string): string {
    if namespace != "" then namespace + "/" + name else name
  }

  function KeyOf(crypt: Crypt): string {
    MetaKey(crypt.namespace, crypt.name)
  }

  /** The index key a namespaced lister builds. */
  function IndexKey(namespace: string, name: string): string {
    namespace + "/" + name
  }

  /** The pieces of `s` between slashes; there is always at least one. */
  function SplitSlashes(s: string): (parts: seq<string>)
    ensures |parts| >= 1
  {
    if s == "" then
      [""]
    else
      var rest := SplitSlashes(s[1..]);
      if s[0] == '/' then [""] + rest else [[s[0]] + rest[0]] + rest[1..]
  }

  datatype Split = Split(namespace: string, name: string) | Malformed

  function SplitKey(key: string): Split {
    var parts := SplitSlashes(key);
    if |parts| == 1 then Split("", parts[0])
    else if |parts| == 2 then Split(parts[0], parts[1])
    else Malformed
  }

  /** What a worker finds for a queued key: nothing for a malformed or unknown one. */
  function Lookup(cache: map<string, Crypt>, key: string): Option<Crypt> {
    var split := SplitKey(key);
    if split.Malformed? then None else Find(cache, IndexKey(split.namespace, split.name))
  }

  /** Every entry of the indexer is stored under its own key and has a valid name. */
  ghost predicate ValidCache(cache: map<string, Crypt>) {
    forall k :: k in cache ==> WellNamed(cache[k]) && k == KeyOf(cache[k])
  }

  lemma {:induction false} SplitPlain(s: string)
    requires SlashFree(s)
    ensures SplitSlashes(s) == [s]
  {
    if s != "" {
      SplitPlain(s[1..]);
      assert s == [s[0]] + s[1..];
    }
  }

  lemma {:induction false} SplitJoined(a: string, b: string)
    requires SlashFree(a) && SlashFree(b)
    ensures SplitSlashes(a + "/" + b) == [a, b]
  {
    var s := a + "/" + b;
    if a == "" {
      assert s[1..] == b;
      SplitPlain(b);
    } else {
      assert s[1..] == a[1..] + "/" + b;
      SplitJoined(a[1..], b);
      assert a == [a[0]] + a[1..];
    }
  }

  /** A queued key is the name, after the namespace and a slash if there is one, and splits back into the two. */
  lemma KeyRoundTrip(namespace: string, name: string)
    requires SlashFree(namespace) && SlashFree(name)
    ensures SplitKey(MetaKey(namespace, name)) == Split(namespace, name)
    ensures var key, n := MetaKey(namespace, name), |namespace|;
            if n == 0 then key == name
            else |key| == n + 1 + |name| && key[..n] == namespace && key[n] == '/' && key[n + 1..] == name
  {
    if namespace == "" {
      SplitPlain(name);
    } else {
      SplitJoined(namespace, name);
    }
  }

  /** Distinct crypts never share a queue key. */
  lemma KeysAreUnique(ns1: string, name1: string, ns2: string, name2: string)
    requires SlashFree(ns1) && SlashFree(name1) && SlashFree(ns2) && SlashFree(name2)
    ensures MetaKey(ns1, name1) == MetaKey(ns2, name2) <==> ns1 == ns2 && name1 == name2
  {
    KeyRoundTrip(ns1, name1);
    KeyRoundTrip(ns2, name2);
  }

  /** The lister asks for the key the object is indexed under exactly when the object has a namespace. */
  lemma ListerRebuildsKey(namespace: string, name: string)
    requires SlashFree(namespace) && SlashFree(name)
    ensures var split := SplitKey(MetaKey(namespace, name));
            split.Split? && (IndexKey(split.namespace, split.name) == MetaKey(namespace, name) <==> namespace != "")
  {
    KeyRoundTrip(namespace, name);
    assert |IndexKey("", name)| == |name| + 1;
  }

  /** A worker that takes the key of a crypt finds exactly the cached crypt of that namespace and name. */
  lemma LookupFindsEnqueued(cache: map<string, Crypt>, crypt: Crypt)
    requires ValidCache(cache) && WellNamed(crypt)
    ensures Lookup(cache, KeyOf(crypt)) == Find(cache, KeyOf(crypt))
    ensures var found := Lookup(cache, KeyOf(crypt));
            found.Some? ==> found.value.namespace == crypt.namespace && found.value.name == crypt.name
  {
    ListerRebuildsKey(crypt.namespace, crypt.name);
    if KeyOf(crypt) in cache {
      var c := cache[KeyOf(crypt)];
      KeysAreUnique(crypt.namespace, crypt.name, c.namespace, c.name);
    }
  }

  /** Whatever a lookup returns is a cached crypt that is filed under the very key that was queued. */
  lemma LookupIsCached(cache: map<string, Crypt>, key: string)
    requires ValidCache(cache)
    ensures Lookup(cache, key).Some? <==> key in cache
    ensures key in cache ==> Lookup(cache, key) == Some(cache[key])
  {
    if key in cache {
      LookupFindsEnqueued(cache, cache[key]);
    } else if Lookup(cache, key).Some? {
      SplitIsJoined(key);
      var split := SplitKey(key);
      var c := cache[IndexKey(split.namespace, split.name)];
      assert key != IndexKey(split.namespace, split.name);
      assert key == split.name && split.namespace == "";
      KeyWithoutNamespace(c, split.name);
      assert false;
    }
  }

  /** Joining the pieces of a well-formed key gives the key back, unless it had no slash. */
  lemma SplitIsJoined(key: string)
    requires SplitKey(key).Split?
    ensures var split := SplitKey(key);
            key == IndexKey(split.namespace, split.name) || (split.namespace == "" && key == split.name)
  {
    PartsRejoin(key);
  }

  function Join(parts: seq<string>): string
    requires |parts| >= 1
  {
    if |parts| == 1 then parts[0] else parts[0] + "/" + Join(parts[1..])
  }

  lemma {:induction false} PartsRejoin(s: string)
    ensures Join(SplitSlashes(s)) == s
  {
    if s != "" {
      PartsRejoin(s[1..]);
      var rest := SplitSlashes(s[1..]);
      assert s == [s[0]] + s[1..];
      if s[0] == '/' {
        JoinAfterSlash(rest);
      } else {
        JoinLonger(s[0], rest);
      }
    }
  }

  lemma JoinAfterSlash(parts: seq<string>)
    requires |parts| >= 1
    ensures Join([""] + parts) == "/" + Join(parts)
  {
    assert ([""] + parts)[1..] == parts;
  }

  lemma JoinLonger(c: char, parts: seq<string>)
    requires |parts| >= 1
    ensures Join([[c] + parts[0]] + parts[1..]) == [c] + Join(parts)
  {
    var longer := [[c] + parts[0]] + parts[1..];
    assert longer[0] == [c] + parts[0] && longer[1..] == parts[1..];
    if |parts| > 1 {
      var rest := Join(parts[1..]);
      assert Join(longer) == longer[0] + "/" + rest && Join(parts) == parts[0] + "/" + rest;
      Regroup([c], parts[0], "/");
      Regroup([c], parts[0] + "/", rest);
    }
  }

  lemma Regroup(a: string, b: string, c: string)
    ensures a + b + c == a + (b + c)
  {
  }

  /** No crypt inside a namespace is filed under a key with an empty namespace part. */
  lemma KeyWithoutNamespace(crypt: Crypt, name: string)
    requires WellNamed(crypt)
    ensures KeyOf(crypt) != IndexKey("", name)
  {
    assert KeyOf(crypt)[0] == crypt.namespace[0];
  }
}
