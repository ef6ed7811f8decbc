/** Object identity for the ownership sort: keys, their order, and the owner edges of a list of
    objects. */
module ObjectKeys {
  import Text
  import Sorting
  import opened K8sTypes

  /** `objectKey`, kept as the tuple of the four parts the key text joins. */
  datatype ObjectKey = ObjectKey(namespace: string, groupVersion: string, kind: string, name: string)

  function Key(obj: Object): ObjectKey {
    ObjectKey(obj.meta.namespace, obj.apiVersion, obj.kind, obj.meta.name)
  }

  /** The key of the object an owner reference names: the owned object's namespace with the
      reference's group version, kind and name. */
  function OwnerKey(obj: Object, ref: OwnerReference): ObjectKey {
    ObjectKey(obj.meta.namespace, ref.apiVersion, ref.kind, ref.name)
  }

  /** `objectCmp` on the keys of the compared objects: namespace, then group version, then kind,
      then name, each as Go compares strings; -1, 0 or 1. */
  function KeyCmp(a: ObjectKey, b: ObjectKey): (r: int)
    ensures r == -1 || r == 0 || r == 1
    ensures r == 0 <==> a == b
    ensures r == -1 <==> (
      || Text.Less(a.namespace, b.namespace)
      || (a.namespace == b.namespace && Text.Less(a.groupVersion, b.groupVersion))
      || (a.namespace == b.namespace && a.groupVersion == b.groupVersion && Text.Less(a.kind, b.kind))
      || (a.namespace == b.namespace && a.groupVersion == b.groupVersion && a.kind == b.kind && Text.Less(a.name, b.name)))
  {
    var c := Text.Compare(a.namespace, b.namespace);
    if c != 0 then c
    else
      var c' := Text.Compare(a.groupVersion, b.groupVersion);
      if c' != 0 then c'
      else
        var c'' := Text.Compare(a.kind, b.kind);
        if c'' != 0 then c'' else Text.Compare(a.name, b.name)
  }

  /** `objectCmp`. */
  function ObjectCmp(a: Object, b: Object): (r: int)
    ensures r == 0 <==> Key(a) == Key(b)
  {
    KeyCmp(Key(a), Key(b))
  }

  lemma KeyCmpAntisymmetric(a: ObjectKey, b: ObjectKey)
    ensures KeyCmp(a, b) == -KeyCmp(b, a)
  {
    Text.LessTrichotomy(a.namespace, b.namespace);
    Text.LessTrichotomy(a.groupVersion, b.groupVersion);
    Text.LessTrichotomy(a.kind, b.kind);
    Text.LessTrichotomy(a.name, b.name);
    if Text.Less(a.namespace, b.namespace) { Text.LessAsymmetric(a.namespace, b.namespace); }
    if Text.Less(b.namespace, a.namespace) { Text.LessAsymmetric(b.namespace, a.namespace); }
    if Text.Less(a.groupVersion, b.groupVersion) { Text.LessAsymmetric(a.groupVersion, b.groupVersion); }
    if Text.Less(b.groupVersion, a.groupVersion) { Text.LessAsymmetric(b.groupVersion, a.groupVersion); }
    if Text.Less(a.kind, b.kind) { Text.LessAsymmetric(a.kind, b.kind); }
    if Text.Less(b.kind, a.kind) { Text.LessAsymmetric(b.kind, a.kind); }
    if Text.Less(a.name, b.name) { Text.LessAsymmetric(a.name, b.name); }
    if Text.Less(b.name, a.name) { Text.LessAsymmetric(b.name, a.name); }
  }

  /** The order the sort uses for keys. */
  predicate KeyLess(a: ObjectKey, b: ObjectKey) {
    KeyCmp(a, b) < 0
  }

  lemma KeyLessTransitive(a: ObjectKey, b: ObjectKey, c: ObjectKey)
    requires KeyLess(a, b) && KeyLess(b, c)
    ensures KeyLess(a, c)
  {
    if Text.Less(a.namespace, b.namespace) && Text.Less(b.namespace, c.namespace) {
      Text.LessTransitive(a.namespace, b.namespace, c.namespace);
    }
    if Text.Less(a.groupVersion, b.groupVersion) && Text.Less(b.groupVersion, c.groupVersion) {
      Text.LessTransitive(a.groupVersion, b.groupVersion, c.groupVersion);
    }
    if Text.Less(a.kind, b.kind) && Text.Less(b.kind, c.kind) {
      Text.LessTransitive(a.kind, b.kind, c.kind);
    }
    if Text.Less(a.name, b.name) && Text.Less(b.name, c.name) {
      Text.LessTransitive(a.name, b.name, c.name);
    }
  }

  /** The key order is a strict total order: `objectCmp` returns 0 only for equal keys, so an
      unstable sort by it still has a single possible result. */
  lemma KeyLessIsStrictTotalOrder()
    ensures Sorting.StrictTotalOrder(KeyLess)
  {
    forall a, b, c | KeyLess(a, b) && KeyLess(b, c) ensures KeyLess(a, c) {
      KeyLessTransitive(a, b, c);
    }
    forall a, b ensures KeyLess(a, b) || a == b || KeyLess(b, a) {
      KeyCmpAntisymmetric(a, b);
    }
  }

  /** `slices.SortFunc` with `objectCmp` on a list of keys: a sorted permutation, and since the
      order is total the only one. */
  function SortKeys(s: seq<ObjectKey>): (r: seq<ObjectKey>)
    ensures multiset(r) == multiset(s)
    ensures forall k :: k in r <==> k in s
    ensures Sorting.Sorted(r, KeyLess)
  {
    KeyLessIsStrictTotalOrder();
    Sorting.SortBySpec(s, KeyLess);
    var r := Sorting.SortBy(s, KeyLess);
    assert forall k :: k in r <==> k in multiset(r);
    assert forall k :: k in s <==> k in multiset(s);
    r
  }

  /** The order of a list of keys does not change its sorted form. */
  lemma SortKeysCanonical(s: seq<ObjectKey>, t: seq<ObjectKey>)
    requires multiset(s) == multiset(t)
    ensures SortKeys(s) == SortKeys(t)
  {
    KeyLessIsStrictTotalOrder();
    Sorting.SortedUnique(SortKeys(s), SortKeys(t), KeyLess);
  }

  /** The keys of a list of objects, in order and with repeats (`Names` as first built). */
  function Keys(objs: seq<Object>): (r: seq<ObjectKey>)
    ensures |r| == |objs| && forall i :: 0 <= i < |objs| ==> r[i] == Key(objs[i])
  {
    if |objs| == 0 then [] else Keys(objs[..|objs| - 1]) + [Key(objs[|objs| - 1])]
  }

  /** `ByName` as built: every key maps to an object with that key. */
  function Index(objs: seq<Object>): (m: map<ObjectKey, Object>)
    ensures forall k :: k in m <==> k in Keys(objs)
    ensures forall k :: k in m ==> Key(m[k]) == k
  {
    if |objs| == 0 then map[]
    else
      var init := objs[..|objs| - 1];
      assert forall k :: k in Keys(objs) <==> k in Keys(init) || k == Key(objs[|objs| - 1]) by {
        assert Keys(objs) == Keys(init) + [Key(objs[|objs| - 1])];
      }
      Index(init)[Key(objs[|objs| - 1]) := objs[|objs| - 1]]
  }

  /** For repeated keys the last object wins. */
  lemma {:induction false} IndexLastWins(objs: seq<Object>, j: nat)
    requires j < |objs|
    requires forall j' :: j < j' < |objs| ==> Key(objs[j']) != Key(objs[j])
    ensures Key(objs[j]) in Index(objs) && Index(objs)[Key(objs[j])] == objs[j]
    decreases |objs|
  {
    if j < |objs| - 1 {
      IndexLastWins(objs[..|objs| - 1], j);
    }
  }

  /** The owner edges (owned, owner) of the first `n` owner references of an object, to owners
      present in `byName`. */
  function RefEdges(obj: Object, n: nat, byName: map<ObjectKey, Object>): set<(ObjectKey, ObjectKey)>
    requires n <= |obj.meta.ownerReferences|
  {
    if n == 0 then {}
    else
      var ownerKey := OwnerKey(obj, obj.meta.ownerReferences[n - 1]);
      RefEdges(obj, n - 1, byName) + (if ownerKey in byName then {(Key(obj), ownerKey)} else {})
  }

  /** The owner edges of the first `n` objects. */
  function EdgesOf(objs: seq<Object>, n: nat, byName: map<ObjectKey, Object>): set<(ObjectKey, ObjectKey)>
    requires n <= |objs|
  {
    if n == 0 then {}
    else EdgesOf(objs, n - 1, byName) + RefEdges(objs[n - 1], |objs[n - 1].meta.ownerReferences|, byName)
  }

  /** The ownership relation of a list of objects: (owned, owner) pairs between listed keys. */
  function Edges(objs: seq<Object>): set<(ObjectKey, ObjectKey)> {
    EdgesOf(objs, |objs|, Index(objs))
  }

  lemma {:induction false} RefEdgesMeaning(obj: Object, n: nat, byName: map<ObjectKey, Object>, e: (ObjectKey, ObjectKey))
    requires n <= |obj.meta.ownerReferences|
    ensures e in RefEdges(obj, n, byName) <==>
      e.0 == Key(obj) && e.1 in byName && exists j :: 0 <= j < n && OwnerKey(obj, obj.meta.ownerReferences[j]) == e.1
    decreases n
  {
    if n > 0 {
      RefEdgesMeaning(obj, n - 1, byName, e);
    }
  }

  lemma {:induction false} EdgesOfMeaning(objs: seq<Object>, n: nat, byName: map<ObjectKey, Object>, e: (ObjectKey, ObjectKey))
    requires n <= |objs|
    ensures e in EdgesOf(objs, n, byName) <==>
      && e.1 in byName
      && exists i, j :: 0 <= i < n && 0 <= j < |objs[i].meta.ownerReferences| &&
           Key(objs[i]) == e.0 && OwnerKey(objs[i], objs[i].meta.ownerReferences[j]) == e.1
    decreases n
  {
    if n > 0 {
      EdgesOfMeaning(objs, n - 1, byName, e);
      RefEdgesMeaning(objs[n - 1], |objs[n - 1].meta.ownerReferences|, byName, e);
    }
  }

  /** An owner edge is recorded exactly when some listed object with the owned key has an owner
      reference whose key, taken in the owned object's namespace, belongs to a listed object. */
  lemma EdgesMeaning(objs: seq<Object>, owned: ObjectKey, owner: ObjectKey)
    ensures (owned, owner) in Edges(objs) <==>
      && owner in Keys(objs)
      && exists i, j :: 0 <= i < |objs| && 0 <= j < |objs[i].meta.ownerReferences| &&
           Key(objs[i]) == owned && OwnerKey(objs[i], objs[i].meta.ownerReferences[j]) == owner
  {
    EdgesOfMeaning(objs, |objs|, Index(objs), (owned, owner));
  }
}
