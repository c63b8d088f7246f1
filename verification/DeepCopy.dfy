/**
 The deep copy of the crypt object graph. Go structs are values that hold references, as they are in Go; maps and
 slices are heap objects, and nil is `null`. A struct copy starts from the shallow value and replaces each reference.

 Each copy method hands out the set of objects it allocated. `Within` says that everything a value leads to lies
 in such a set: freshness of the set is separation from the input, disjointness of two sets separation of copies.
 No method of this module writes to an object that existed before, except to the target that `modifies` names.
 */
module DeepCopy {
  import opened Common
  import Resources

  // --- Maps -----------------------------------------------------------------------------------------------

  class StringMap {
    var entries: map<string, string>

    constructor ()
      ensures entries == map[]
    {
      entries := map[];
    }
  }

  ghost function MapValue(m: StringMap?): Option<map<string, string>>
    reads m
  {
    if m == null then None else Some(m.entries)
  }

  ghost function MapParts(m: StringMap?): set<object> {
    if m == null then {} else {m}
  }

  /** A nil map stays nil; any other is made anew and filled pair by pair. */
  method CopyStringMap(m: StringMap?) returns (copy: StringMap?)
    ensures m == null <==> copy == null
    ensures m != null ==> fresh(copy) && copy.entries == m.entries
    ensures fresh(MapParts(copy)) && MapValue(copy) == MapValue(m)
  {
    if m == null {
      return null;
    }
    copy := new StringMap();
    var unseen := m.entries.Keys;
    while unseen != {}
      invariant fresh(copy)
      invariant unseen <= m.entries.Keys
      invariant copy.entries.Keys == m.entries.Keys - unseen
      invariant forall k :: k in copy.entries ==> copy.entries[k] == m.entries[k]
      decreases unseen
    {
      var key :| key in unseen;
      copy.entries := copy.entries[key := m.entries[key]];
      unseen := unseen - {key};
    }
    assert copy.entries == m.entries;
  }

  // --- SecretDefinition -----------------------------------------------------------------------------------

  datatype SecretDefinition = SecretDefinition(
    name: string, secretType: string, key: string, labels: StringMap?, annotations: StringMap?)
  {
    ghost function Maps(): set<object> {
      MapParts(labels) + MapParts(annotations)
    }

    ghost function Value(): Resources.SecretDefinition
      reads labels, annotations
    {
      Resources.SecretDefinition(name, secretType, key, MapValue(labels), MapValue(annotations))
    }

    /** The two maps are not one map. */
    ghost predicate Separate() {
      MapParts(labels) !! MapParts(annotations)
    }

    method DeepCopy() returns (out: SecretDefinition)
      ensures out.Value() == Value()
      ensures fresh(out.Maps()) && out.Separate()
    {
      out := this;
      if labels != null {
        var copy := CopyStringMap(labels);
        out := out.(labels := copy);
      }
      if annotations != null {
        var copy := CopyStringMap(annotations);
        out := out.(annotations := copy);
      }
    }
  }

  // --- Slices of definitions --------------------------------------------------------------------------------

  type Slice = array?<SecretDefinition>

  ghost function SlotMaps(slice: Slice): set<object>
    reads slice
  {
    if slice == null then {} else set i, o | 0 <= i < slice.Length && o in slice[i].Maps() :: o
  }

  lemma SlotMapsHold(slice: Slice, i: nat)
    requires slice != null && i < slice.Length
    ensures slice[i].Maps() <= SlotMaps(slice)
    ensures slice[i].labels != null ==> slice[i].labels in SlotMaps(slice)
    ensures slice[i].annotations != null ==> slice[i].annotations in SlotMaps(slice)
  {
    assert forall o :: o in slice[i].Maps() ==> o in SlotMaps(slice);
    assert forall m: StringMap :: m in MapParts(slice[i].labels) ==> m in slice[i].Maps();
    assert forall m: StringMap :: m in MapParts(slice[i].annotations) ==> m in slice[i].Maps();
  }

  /** Both nil, or of one length with equal definitions in each slot. */
  ghost predicate EqualSlices(a: Slice, b: Slice)
    reads a, SlotMaps(a), b, SlotMaps(b)
  {
    && (a == null <==> b == null)
    && (a != null ==>
          a.Length == b.Length
          && forall i :: 0 <= i < a.Length ==>
               (SlotMapsHold(a, i); SlotMapsHold(b, i); a[i].Value() == b[i].Value()))
  }

  /** The slice and the maps of its slots all lie in the set. */
  ghost predicate SliceWithin(slice: Slice, owned: set<object>)
    reads slice
  {
    slice != null ==> slice in owned && forall i :: 0 <= i < slice.Length ==> slice[i].Maps() <= owned
  }

  /** No two slots share a map, and no slot uses one map twice. */
  ghost predicate SliceSeparate(slice: Slice)
    reads slice
  {
    slice != null ==>
      && (forall i :: 0 <= i < slice.Length ==> slice[i].Separate())
      && forall i, j :: 0 <= i < j < slice.Length ==> slice[i].Maps() !! slice[j].Maps()
  }

  /** A new slice, each slot deep-copied from the old one, whatever the old slots share. */
  method CopySlice(src: Slice) returns (dst: Slice, ghost owned: set<object>)
    ensures fresh(owned) && SliceWithin(dst, owned) && SliceSeparate(dst)
    ensures EqualSlices(dst, src)
  {
    if src == null {
      return null, {};
    }
    var copies: seq<SecretDefinition> := [];
    owned := {};
    for i := 0 to src.Length
      invariant |copies| == i && fresh(owned)
      invariant forall j :: 0 <= j < i ==> copies[j].Maps() <= owned && copies[j].Separate()
      invariant forall j, k :: 0 <= j < k < i ==> copies[j].Maps() !! copies[k].Maps()
      invariant forall j :: 0 <= j < i ==> copies[j].Value() == src[j].Value()
    {
      var slot := src[i].DeepCopy();
      copies := copies + [slot];
      owned := owned + slot.Maps();
    }
    dst := new SecretDefinition[src.Length](i requires 0 <= i < |copies| => copies[i]);
    owned := owned + {dst};
  }

  method CopyStrings(src: array?<string>) returns (dst: array?<string>)
    ensures src == null <==> dst == null
    ensures src != null ==> fresh(dst) && dst[..] == src[..]
  {
    if src == null {
      return null;
    }
    dst := new string[src.Length](i requires 0 <= i < src.Length reads src => src[i]);
    assert dst[..] == src[..];
  }

  // --- CryptSpec --------------------------------------------------------------------------------------------

  datatype CryptSpec = CryptSpec(secrets: Slice, namespaces: array?<string>)
  {
    ghost predicate Equals(that: CryptSpec)
      reads secrets, SlotMaps(secrets), namespaces, that.secrets, SlotMaps(that.secrets), that.namespaces
    {
      && EqualSlices(secrets, that.secrets)
      && (namespaces == null <==> that.namespaces == null)
      && (namespaces != null ==> namespaces[..] == that.namespaces[..])
    }

    ghost predicate Within(owned: set<object>)
      reads secrets
    {
      SliceWithin(secrets, owned) && (namespaces != null ==> namespaces in owned)
    }

    ghost predicate Separate()
      reads secrets
    {
      SliceSeparate(secrets)
    }

    method DeepCopy() returns (out: CryptSpec, ghost owned: set<object>)
      ensures out.Equals(this)
      ensures fresh(owned) && out.Within(owned) && out.Separate()
    {
      out, owned := this, {};
      if secrets != null {
        var slice;
        slice, owned := CopySlice(secrets);
        out := out.(secrets := slice);
      }
      if namespaces != null {
        var slice := CopyStrings(namespaces);
        out := out.(namespaces := slice);
        owned := owned + {slice};
      }
    }
  }

  // --- Crypt ------------------------------------------------------------------------------------------------

  datatype TypeMeta = TypeMeta(kind: string, apiVersion: string)

  datatype MetaValue = MetaValue(name: string, namespace: string, uid: string,
                                 labels: Option<map<string, string>>, annotations: Option<map<string, string>>)

  /** Object metadata, as far as a crypt's identity and the shape of its copy go. */
  datatype ObjectMeta = ObjectMeta(name: string, namespace: string, uid: string, labels: StringMap?,
                                   annotations: StringMap?)
  {
    ghost function Maps(): set<object> {
      MapParts(labels) + MapParts(annotations)
    }

    ghost function Value(): MetaValue
      reads labels, annotations
    {
      MetaValue(name, namespace, uid, MapValue(labels), MapValue(annotations))
    }

    method DeepCopy() returns (out: ObjectMeta)
      ensures out.Value() == Value()
      ensures fresh(out.Maps()) && MapParts(out.labels) !! MapParts(out.annotations)
    {
      var labelsCopy := CopyStringMap(labels);
      var annotationsCopy := CopyStringMap(annotations);
      out := this.(labels := labelsCopy, annotations := annotationsCopy);
    }
  }

  /** The crypt struct; its status has no fields, so there is nothing of it to copy. */
  datatype Crypt = Crypt(typeMeta: TypeMeta, meta: ObjectMeta, spec: CryptSpec)
  {
    ghost predicate Equals(that: Crypt)
      reads meta.labels, meta.annotations, spec.secrets, SlotMaps(spec.secrets), spec.namespaces
      reads that.meta.labels, that.meta.annotations
      reads that.spec.secrets, SlotMaps(that.spec.secrets), that.spec.namespaces
    {
      typeMeta == that.typeMeta && meta.Value() == that.meta.Value() && spec.Equals(that.spec)
    }

    /** Everything the crypt leads to lies in the set. */
    ghost predicate Within(owned: set<object>)
      reads spec.secrets
    {
      meta.Maps() <= owned && spec.Within(owned)
    }

    /** No two references inside the crypt lead to one object. */
    ghost predicate Separate()
      reads spec.secrets
    {
      && MapParts(meta.labels) !! MapParts(meta.annotations)
      && spec.Separate()
      && meta.Maps() !! SlotMaps(spec.secrets)
    }

    method DeepCopy() returns (out: Crypt, ghost owned: set<object>)
      ensures out.Equals(this)
      ensures fresh(owned) && out.Within(owned) && out.Separate()
    {
      var metaCopy := meta.DeepCopy();
      var specCopy;
      specCopy, owned := spec.DeepCopy();
      out := Crypt(typeMeta, metaCopy, specCopy);
      assert SlotMaps(specCopy.secrets) <= owned;
      owned := owned + metaCopy.Maps();
    }
  }

  // --- CryptList --------------------------------------------------------------------------------------------

  datatype ListMeta = ListMeta(resourceVersion: string, continueToken: string)

  datatype CryptList = CryptList(typeMeta: TypeMeta, listMeta: ListMeta, items: array?<Crypt>)
  {
    /** Equal item by item, nil for nil. */
    ghost predicate Equals(that: CryptList)
      reads *
    {
      && typeMeta == that.typeMeta && listMeta == that.listMeta
      && (items == null <==> that.items == null)
      && (items != null ==>
            items.Length == that.items.Length && forall i :: 0 <= i < items.Length ==> items[i].Equals(that.items[i]))
    }

    /** What the i-th item leads to lies in the i-th set, and no two sets share anything. */
    ghost predicate Within(owned: seq<set<object>>)
      reads *
    {
      items != null ==>
        && |owned| == items.Length
        && (forall i :: 0 <= i < items.Length ==> items[i].Within(owned[i]) && items[i].Separate())
        && (forall i, j :: 0 <= i < j < items.Length ==> owned[i] !! owned[j])
    }

    /** The copies of two items share nothing, even when the items of the source shared parts. */
    method DeepCopy() returns (out: CryptList, ghost owned: seq<set<object>>)
      ensures out.Equals(this)
      ensures out.items != null ==> fresh(out.items)
      ensures out.Within(owned) && forall i :: 0 <= i < |owned| ==> fresh(owned[i])
    {
      out, owned := this, [];
      if items != null {
        var copies;
        copies, owned := CopyItems(items);
        label Copied:
        var slice := MakeSlice(copies);
        out := out.(items := slice);
        forall i | 0 <= i < items.Length
          ensures slice[i].Equals(items[i])
        {
          assert old@Copied(copies[i].Equals(items[i]));
        }
      }
    }
  }

  method MakeSlice(items: seq<Crypt>) returns (slice: array<Crypt>)
    ensures fresh(slice) && slice.Length == |items|
    ensures forall i :: 0 <= i < |items| ==> slice[i] == items[i]
  {
    slice := new Crypt[|items|](i requires 0 <= i < |items| => items[i]);
  }

  /** Each item deep-copied into its own set of new objects. */
  method CopyItems(items: array<Crypt>) returns (copies: seq<Crypt>, ghost owned: seq<set<object>>)
    ensures |copies| == |owned| == items.Length
    ensures forall i :: 0 <= i < items.Length ==> copies[i].Equals(items[i])
    ensures forall i :: 0 <= i < items.Length ==> fresh(owned[i]) && copies[i].Within(owned[i]) && copies[i].Separate()
    ensures forall i, j :: 0 <= i < j < items.Length ==> owned[i] !! owned[j]
  {
    copies, owned := [], [];
    for i := 0 to items.Length
      invariant |copies| == |owned| == i
      invariant forall j :: 0 <= j < i ==> fresh(owned[j])
      invariant forall j :: 0 <= j < i ==> copies[j].Equals(items[j])
      invariant forall j :: 0 <= j < i ==> copies[j].Within(owned[j]) && copies[j].Separate()
      invariant forall j, k :: 0 <= j < k < i ==> owned[j] !! owned[k]
    {
      var copy;
      ghost var parts;
      label Before:
      copy, parts := items[i].DeepCopy();
      forall j | 0 <= j < i
        ensures copies[j].Equals(items[j])
      {
        assert old@Before(copies[j].Equals(items[j]));
      }
      copies, owned := copies + [copy], owned + [parts];
    }
  }

  // --- What equality and separation come to -----------------------------------------------------------------

  /** Both nil, or two maps with the same pairs. */
  ghost predicate SameMaps(a: StringMap?, b: StringMap?)
    reads a, b
  {
    (a == null <==> b == null) && (a != null ==> a.entries == b.entries)
  }

  lemma EqualDefinitionsMean(a: SecretDefinition, b: SecretDefinition)
    ensures a.Value() == b.Value()
            <==> a.name == b.name && a.secretType == b.secretType && a.key == b.key
                 && SameMaps(a.labels, b.labels) && SameMaps(a.annotations, b.annotations)
  {
  }

  /** Equal crypts agree in every field, nil and empty kept apart, slot by slot and entry by entry. */
  lemma EqualCryptsMean(a: Crypt, b: Crypt)
    requires a.Equals(b)
    ensures a.typeMeta == b.typeMeta
    ensures a.meta.name == b.meta.name && a.meta.namespace == b.meta.namespace && a.meta.uid == b.meta.uid
    ensures SameMaps(a.meta.labels, b.meta.labels) && SameMaps(a.meta.annotations, b.meta.annotations)
    ensures a.spec.namespaces == null <==> b.spec.namespaces == null
    ensures a.spec.namespaces != null ==> a.spec.namespaces[..] == b.spec.namespaces[..]
    ensures a.spec.secrets == null <==> b.spec.secrets == null
    ensures a.spec.secrets != null ==>
              var x, y := a.spec.secrets, b.spec.secrets;
              && x.Length == y.Length
              && forall i :: 0 <= i < x.Length ==>
                   && x[i].name == y[i].name && x[i].secretType == y[i].secretType && x[i].key == y[i].key
                   && SameMaps(x[i].labels, y[i].labels) && SameMaps(x[i].annotations, y[i].annotations)
  {
    if a.spec.secrets != null {
      var x, y := a.spec.secrets, b.spec.secrets;
      forall i | 0 <= i < x.Length
        ensures x[i].name == y[i].name && x[i].secretType == y[i].secretType && x[i].key == y[i].key
        ensures SameMaps(x[i].labels, y[i].labels) && SameMaps(x[i].annotations, y[i].annotations)
      {
        SlotMapsHold(a.spec.secrets, i);
        SlotMapsHold(b.spec.secrets, i);
        EqualDefinitionsMean(a.spec.secrets[i], b.spec.secrets[i]);
      }
    }
  }

  lemma MapIn(m: StringMap?, owned: set<object>)
    ensures MapParts(m) <= owned <==> (m != null ==> m in owned)
  {
  }

  /** Everything that can be reached from the crypt by a reference is in the set. */
  lemma WithinMeans(c: Crypt, owned: set<object>)
    requires c.Within(owned)
    ensures c.meta.labels != null ==> c.meta.labels in owned
    ensures c.meta.annotations != null ==> c.meta.annotations in owned
    ensures c.spec.namespaces != null ==> c.spec.namespaces in owned
    ensures c.spec.secrets != null ==>
              && c.spec.secrets in owned
              && forall i :: 0 <= i < c.spec.secrets.Length ==>
                   && (c.spec.secrets[i].labels != null ==> c.spec.secrets[i].labels in owned)
                   && (c.spec.secrets[i].annotations != null ==> c.spec.secrets[i].annotations in owned)
  {
    MapIn(c.meta.labels, owned);
    MapIn(c.meta.annotations, owned);
    if c.spec.secrets != null {
      forall i | 0 <= i < c.spec.secrets.Length
        ensures c.spec.secrets[i].labels != null ==> c.spec.secrets[i].labels in owned
        ensures c.spec.secrets[i].annotations != null ==> c.spec.secrets[i].annotations in owned
      {
        MapIn(c.spec.secrets[i].labels, owned);
        MapIn(c.spec.secrets[i].annotations, owned);
      }
    }
  }

  ghost predicate Apart(a: StringMap?, b: StringMap?) {
    a == null || b == null || a != b
  }

  /** No map can be reached from the crypt in two ways. */
  lemma SeparateMeans(c: Crypt)
    requires c.Separate()
    ensures Apart(c.meta.labels, c.meta.annotations)
    ensures c.spec.secrets != null ==>
              var defs := c.spec.secrets;
              && (forall i :: 0 <= i < defs.Length ==>
                    && Apart(defs[i].labels, defs[i].annotations)
                    && Apart(c.meta.labels, defs[i].labels) && Apart(c.meta.labels, defs[i].annotations)
                    && Apart(c.meta.annotations, defs[i].labels) && Apart(c.meta.annotations, defs[i].annotations))
              && (forall i, j :: 0 <= i < j < defs.Length ==>
                    && Apart(defs[i].labels, defs[j].labels) && Apart(defs[i].labels, defs[j].annotations)
                    && Apart(defs[i].annotations, defs[j].labels) && Apart(defs[i].annotations, defs[j].annotations))
  {
    DisjointMaps(c.meta.labels, c.meta.annotations);
    var defs := c.spec.secrets;
    if defs != null {
      forall i | 0 <= i < defs.Length
        ensures Apart(defs[i].labels, defs[i].annotations)
        ensures Apart(c.meta.labels, defs[i].labels) && Apart(c.meta.labels, defs[i].annotations)
        ensures Apart(c.meta.annotations, defs[i].labels) && Apart(c.meta.annotations, defs[i].annotations)
      {
        SlotMapsHold(defs, i);
        DisjointMaps(defs[i].labels, defs[i].annotations);
        DisjointPairs(c.meta.labels, c.meta.annotations, defs[i].labels, defs[i].annotations);
      }
      forall i, j | 0 <= i < j < defs.Length
        ensures Apart(defs[i].labels, defs[j].labels) && Apart(defs[i].labels, defs[j].annotations)
        ensures Apart(defs[i].annotations, defs[j].labels) && Apart(defs[i].annotations, defs[j].annotations)
      {
        assert defs[i].Maps() !! defs[j].Maps();
        DisjointPairs(defs[i].labels, defs[i].annotations, defs[j].labels, defs[j].annotations);
      }
    }
  }

  lemma DisjointMaps(a: StringMap?, b: StringMap?)
    ensures MapParts(a) !! MapParts(b) <==> Apart(a, b)
  {
    if a != null && a == b {
      assert a in MapParts(a) && a in MapParts(b);
    }
  }

  lemma DisjointPairs(a: StringMap?, b: StringMap?, c: StringMap?, d: StringMap?)
    requires MapParts(a) + MapParts(b) !! MapParts(c) + MapParts(d)
    ensures Apart(a, c) && Apart(a, d) && Apart(b, c) && Apart(b, d)
  {
    DisjointMaps(a, c);
    DisjointMaps(a, d);
    DisjointMaps(b, c);
    DisjointMaps(b, d);
  }

  /** Equal lists agree in their fields and item by item; separate ones have a set of objects to each item. */
  lemma ListsMean(a: CryptList, b: CryptList, owned: seq<set<object>>)
    requires a.Equals(b) && a.Within(owned)
    ensures a.typeMeta == b.typeMeta && a.listMeta == b.listMeta && (a.items == null <==> b.items == null)
    ensures a.items != null ==>
              && a.items.Length == b.items.Length == |owned|
              && (forall i :: 0 <= i < |owned| ==>
                    a.items[i].Equals(b.items[i]) && a.items[i].Within(owned[i]) && a.items[i].Separate())
              && (forall i, j :: 0 <= i < j < |owned| ==> owned[i] !! owned[j])
  {
  }

  // --- Copies through pointers ------------------------------------------------------------------------------

  /** A pointer to a struct. */
  class Pointer<T> {
    var value: T

    constructor (value: T)
      ensures this.value == value
    {
      this.value := value;
    }
  }

  /** Overwrites the target and nothing else; so do the copies of the other structs. */
  method CopyDefinitionInto(src: Pointer<SecretDefinition>, out: Pointer<SecretDefinition>)
    requires src != out
    modifies out
    ensures src.value == old(src.value) && out.value.Value() == src.value.Value()
    ensures fresh(out.value.Maps()) && out.value.Separate()
  {
    var copy := src.value.DeepCopy();
    out.value := copy;
  }

  /** A nil pointer has a nil copy; any other is copied to a new place. So with the other structs. */
  method DeepCopyDefinition(src: Pointer?<SecretDefinition>) returns (out: Pointer?<SecretDefinition>)
    ensures src == null <==> out == null
    ensures src != null ==> fresh(out) && out.value.Value() == src.value.Value()
    ensures src != null ==> fresh(out.value.Maps()) && out.value.Separate()
  {
    if src == null {
      return null;
    }
    out := new Pointer(src.value);
    CopyDefinitionInto(src, out);
  }

  method CopySpecInto(src: Pointer<CryptSpec>, out: Pointer<CryptSpec>) returns (ghost owned: set<object>)
    requires src != out
    modifies out
    ensures src.value == old(src.value) && out.value.Equals(src.value)
    ensures fresh(owned) && out.value.Within(owned) && out.value.Separate()
  {
    var copy;
    copy, owned := src.value.DeepCopy();
    out.value := copy;
  }

  method DeepCopySpec(src: Pointer?<CryptSpec>) returns (out: Pointer?<CryptSpec>, ghost owned: set<object>)
    ensures src == null <==> out == null
    ensures src != null ==> fresh(out) && out.value.Equals(src.value)
    ensures src != null ==> fresh(owned) && out.value.Within(owned) && out.value.Separate()
  {
    if src == null {
      return null, {};
    }
    out := new Pointer(src.value);
    owned := CopySpecInto(src, out);
  }

  method CopyCryptInto(src: Pointer<Crypt>, out: Pointer<Crypt>) returns (ghost owned: set<object>)
    requires src != out
    modifies out
    ensures src.value == old(src.value) && out.value.Equals(src.value)
    ensures fresh(owned) && out.value.Within(owned) && out.value.Separate()
  {
    var copy;
    copy, owned := src.value.DeepCopy();
    out.value := copy;
  }

  method DeepCopyCrypt(src: Pointer?<Crypt>) returns (out: Pointer?<Crypt>, ghost owned: set<object>)
    ensures src == null <==> out == null
    ensures src != null ==> fresh(out) && out.value.Equals(src.value)
    ensures src != null ==> fresh(owned) && out.value.Within(owned) && out.value.Separate()
  {
    if src == null {
      return null, {};
    }
    out := new Pointer(src.value);
    owned := CopyCryptInto(src, out);
  }

  method CopyListInto(src: Pointer<CryptList>, out: Pointer<CryptList>) returns (ghost owned: seq<set<object>>)
    requires src != out
    modifies out
    ensures src.value == old(src.value) && out.value.Equals(src.value)
    ensures out.value.items != null ==> fresh(out.value.items)
    ensures out.value.Within(owned) && forall i :: 0 <= i < |owned| ==> fresh(owned[i])
  {
    var copy;
    copy, owned := src.value.DeepCopy();
    label Copied:
    out.value := copy;
    assert old@Copied(copy.Equals(src.value));
    if copy.items != null {
      forall i | 0 <= i < copy.items.Length
        ensures copy.items[i].Equals(src.value.items[i])
      {
        assert old@Copied(copy.items[i].Equals(src.value.items[i]));
      }
    }
  }

  method DeepCopyList(src: Pointer?<CryptList>) returns (out: Pointer?<CryptList>, ghost owned: seq<set<object>>)
    ensures src == null <==> out == null
    ensures src != null ==> fresh(out) && out.value.Equals(src.value)
    ensures src != null && out.value.items != null ==> fresh(out.value.items)
    ensures src != null ==> out.value.Within(owned) && forall i :: 0 <= i < |owned| ==> fresh(owned[i])
  {
    if src == null {
      return null, [];
    }
    out := new Pointer(src.value);
    owned := CopyListInto(src, out);
  }
}
