/** Small shared vocabulary: optional values, results and pointwise views of finite maps. */
module Common {

  datatype Option<+T> = None | Some(value: T)

  datatype Result<+T, +E> = Ok(value: T) | Err(error: E)

  /** A map read as a total function to optional values. */
  function Find<K(==), V>(m: map<K, V>, k: K): Option<V> {
    if k in m then Some(m[k]) else None
  }

  /** The first value if there is one, else the second. */
  function OrElse<T>(first: Option<T>, second: Option<T>): Option<T> {
    if first.Some? then first else second
  }

  lemma MapsAgree<K, V>(a: map<K, V>, b: map<K, V>)
    requires forall k :: Find(a, k) == Find(b, k)
    ensures a == b
  {
    forall k
      ensures k in a <==> k in b
      ensures k in a ==> a[k] == b[k]
    {
      assert Find(a, k) == Find(b, k);
    }
  }

  predicate NoDuplicates<T(==)>(s: seq<T>) {
    forall i, j :: 0 <= i < j < |s| ==> s[i] != s[j]
  }

  /** `listing` shows every member of `members` exactly once, in an order nobody promises. */
  ghost predicate IsListing<T>(listing: seq<T>, members: set<T>) {
    && NoDuplicates(listing)
    && (set x | x in listing) == members
  }

  /** Appending an unseen member keeps a listing a listing. */
  lemma ListingGrows<T>(listing: seq<T>, members: set<T>, x: T)
    requires IsListing(listing, members) && x !in members
    ensures IsListing(listing + [x], members + {x})
  {
    var longer := listing + [x];
    assert (set y | y in longer) == (set y | y in listing) + {x};
    assert x !in listing;
    forall i, j | 0 <= i < j < |longer|
      ensures longer[i] != longer[j]
    {
      assert longer[i] in listing;
    }
  }
}
