/** The crypt lister over one shared indexer, and the namespace lister. Listings come in no particular order. */
module Listers {
  import opened Common
  import opened Resources
  import opened QueueKeys
  import opened Handlers

  datatype LookupError = CryptNotFound(name: string)

  /** The informer's index: every crypt under the key it was queued with. */
  class Indexer {
    var items: map<string, Crypt>

    constructor ()
      ensures items == map[]
    {
      items := map[];
    }

    /** The informer stores an added or updated crypt under its own key. */
    method Store(crypt: Crypt)
      requires WellNamed(crypt) && ValidCache(items)
      modifies this
      ensures ValidCache(items) && items == old(items)[KeyOf(crypt) := crypt]
    {
      items := items[KeyOf(crypt) := crypt];
    }
  }

  ghost function AllCrypts(items: map<string, Crypt>): set<Crypt> {
    set k | k in items :: items[k]
  }

  /** A label selector, as the crypts it selects. */
  type Selector = Crypt -> bool

  /** The new selector without requirements. */
  function Everything(): Selector {
    crypt => true
  }

  ghost function Chosen(crypts: set<Crypt>, selector: Selector): set<Crypt> {
    set c | c in crypts && selector(c)
  }

  /** The crypts a namespace's lister shows; the empty namespace stands for all of them. */
  ghost function Shown(items: map<string, Crypt>, namespace: string): set<Crypt> {
    if namespace == "" then AllCrypts(items) else CryptsIn(items, namespace)
  }

  predicate IsShown(crypt: Crypt, namespace: string, selector: Selector) {
    (namespace == "" || crypt.namespace == namespace) && selector(crypt)
  }

  ghost function ShownAmong(items: map<string, Crypt>, keys: set<string>, namespace: string,
                            selector: Selector): set<Crypt> {
    set k | k in keys && k in items && IsShown(items[k], namespace, selector) :: items[k]
  }

  /** Calls back for each entry of the index in some order, and appends what the namespace shows. */
  method ListShown(indexer: Indexer, namespace: string, selector: Selector) returns (ret: seq<Crypt>)
    requires ValidCache(indexer.items)
    ensures IsListing(ret, Chosen(Shown(indexer.items, namespace), selector))
  {
    var items := indexer.items;
    var unseen := items.Keys;
    ret := [];
    while unseen != {}
      invariant unseen <= items.Keys
      invariant IsListing(ret, ShownAmong(items, items.Keys - unseen, namespace, selector))
      decreases unseen
    {
      var key :| key in unseen;
      ghost var seen := items.Keys - unseen;
      ghost var shown := ShownAmong(items, seen, namespace, selector);
      unseen := unseen - {key};
      assert items.Keys - unseen == seen + {key};
      if IsShown(items[key], namespace, selector) {
        assert ShownAmong(items, seen + {key}, namespace, selector) == shown + {items[key]};
        ListingGrows(ret, shown, items[key]);
        ret := ret + [items[key]];
      } else {
        assert ShownAmong(items, seen + {key}, namespace, selector) == shown;
      }
    }
    assert ShownAmong(items, items.Keys, namespace, selector) == Chosen(Shown(items, namespace), selector);
  }

  /** The lister struct: one indexer, no copy of its contents. */
  datatype CryptLister = CryptLister(indexer: Indexer)
  {
    method List(selector: Selector) returns (ret: seq<Crypt>)
      requires ValidCache(indexer.items)
      ensures forall i, j :: 0 <= i < j < |ret| ==> ret[i] != ret[j]
      ensures forall c :: c in ret <==> selector(c) && exists k :: k in indexer.items && indexer.items[k] == c
    {
      ret := ListShown(indexer, "", selector);
      forall c
        ensures c in ret <==> selector(c) && exists k :: k in indexer.items && indexer.items[k] == c
      {
        InListing(ret, Chosen(AllCrypts(indexer.items), selector), c);
      }
    }

    function Crypts(namespace: string): CryptNamespaceLister {
      CryptNamespaceLister(indexer, namespace)
    }
  }

  datatype CryptNamespaceLister = CryptNamespaceLister(indexer: Indexer, namespace: string)
  {
    method List(selector: Selector) returns (ret: seq<Crypt>)
      requires ValidCache(indexer.items)
      ensures IsListing(ret, Chosen(Shown(indexer.items, namespace), selector))
      ensures forall i, j :: 0 <= i < j < |ret| ==> ret[i] != ret[j]
      ensures namespace != "" ==>
                forall c :: c in ret
                       <==> selector(c) && c.namespace == namespace
                            && exists k :: k in indexer.items && indexer.items[k] == c
    {
      ret := ListShown(indexer, namespace, selector);
      forall c
        ensures namespace != "" ==>
                  (c in ret <==> selector(c) && c.namespace == namespace
                                 && exists k :: k in indexer.items && indexer.items[k] == c)
      {
        InListing(ret, Chosen(Shown(indexer.items, namespace), selector), c);
      }
    }

    /**
     The cached crypt of this namespace and name: with valid entries it is found exactly when a crypt of that very
     namespace and name is cached.
     */
    function Get(name: string): (r: Result<Crypt, LookupError>)
      requires ValidCache(indexer.items)
      reads indexer
      ensures r.Ok? ==> r.value.namespace == namespace && r.value.name == name
      ensures r.Err? ==> r.error == CryptNotFound(name)
                         && forall k :: k in indexer.items ==>
                              indexer.items[k].namespace != namespace || indexer.items[k].name != name
    {
      var key := IndexKey(namespace, name);
      if key in indexer.items then
        IndexKeyOfCrypt(namespace, name, indexer.items[key]);
        Ok(indexer.items[key])
      else
        Err(CryptNotFound(name))
    }
  }

  class NamespaceLister {
    var names: set<string>

    constructor ()
      ensures names == {}
    {
      names := {};
    }

    method List() returns (ret: seq<string>)
      ensures IsListing(ret, names)
      ensures forall name :: name in ret <==> name in names
    {
      var unseen := names;
      ret := [];
      while unseen != {}
        invariant unseen <= names
        invariant IsListing(ret, names - unseen)
        decreases unseen
      {
        var name :| name in unseen;
        ListingGrows(ret, names - unseen, name);
        assert names - unseen + {name} == names - (unseen - {name});
        unseen := unseen - {name};
        ret := ret + [name];
      }
      forall name
        ensures name in ret <==> name in names
      {
        InListing(ret, names, name);
      }
    }
  }
}
