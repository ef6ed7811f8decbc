/** `SortObjects`: orders objects so that owners come before the objects they own, one
    connected component of the ownership graph at a time. */
module ObjectSort {
  import opened Sorting
  import opened K8sTypes
  import opened ObjectKeys

  /** A missing entry of an adjacency map reads as the empty list, as in Go. */
  function Get(m: map<ObjectKey, seq<ObjectKey>>, k: ObjectKey): seq<ObjectKey> {
    if k in m then m[k] else []
  }

  /** Appends `v` to the list of `k`. */
  function Append(m: map<ObjectKey, seq<ObjectKey>>, k: ObjectKey, v: ObjectKey): (r: map<ObjectKey, seq<ObjectKey>>)
    ensures forall a :: Get(r, a) == if a == k then Get(m, k) + [v] else Get(m, a)
  {
    m[k := Get(m, k) + [v]]
  }

  /** `owning` lists exactly the reverse edges of `owners`. */
  ghost predicate Inverse(owning: map<ObjectKey, seq<ObjectKey>>, owners: map<ObjectKey, seq<ObjectKey>>) {
    forall a, b :: b in Get(owning, a) <==> a in Get(owners, b)
  }

  /** Recording an edge in both directions keeps the two maps inverse to each other. */
  lemma AppendInverse(owning: map<ObjectKey, seq<ObjectKey>>, owners: map<ObjectKey, seq<ObjectKey>>, x: ObjectKey, y: ObjectKey)
    requires Inverse(owning, owners)
    ensures Inverse(Append(owning, y, x), Append(owners, x, y))
  {
    var owning', owners' := Append(owning, y, x), Append(owners, x, y);
    forall a, b ensures b in Get(owning', a) <==> a in Get(owners', b) {
      assert b in Get(owning, a) <==> a in Get(owners, b);
    }
  }

  /** `owners` lists exactly the pairs of `edges`. */
  ghost predicate Represents(owners: map<ObjectKey, seq<ObjectKey>>, edges: set<(ObjectKey, ObjectKey)>) {
    forall a, b :: b in Get(owners, a) <==> (a, b) in edges
  }

  /** Every edge of `owners` joins two keys of `byName`. */
  ghost predicate Within(owners: map<ObjectKey, seq<ObjectKey>>, byName: map<ObjectKey, Object>) {
    forall a, b {:trigger b in Get(owners, a)} :: b in Get(owners, a) ==> a in byName && b in byName
  }

  lemma AppendRepresents(owners: map<ObjectKey, seq<ObjectKey>>, edges: set<(ObjectKey, ObjectKey)>, x: ObjectKey, y: ObjectKey)
    requires Represents(owners, edges)
    ensures Represents(Append(owners, x, y), edges + {(x, y)})
  {
    var owners' := Append(owners, x, y);
    forall a, b ensures b in Get(owners', a) <==> (a, b) in edges + {(x, y)} {
      assert b in Get(owners, a) <==> (a, b) in edges;
    }
  }

  lemma AppendWithin(owners: map<ObjectKey, seq<ObjectKey>>, byName: map<ObjectKey, Object>, x: ObjectKey, y: ObjectKey)
    requires Within(owners, byName) && x in byName && y in byName
    ensures Within(Append(owners, x, y), byName)
  {
    var owners' := Append(owners, x, y);
    forall a, b | b in Get(owners', a) ensures a in byName && b in byName {
      if b in Get(owners, a) {
      }
    }
  }

  /** The components in order, one after another. */
  function Flatten(ccs: seq<seq<ObjectKey>>): seq<ObjectKey> {
    if |ccs| == 0 then [] else Flatten(ccs[..|ccs| - 1]) + ccs[|ccs| - 1]
  }

  lemma {:induction false} FlattenMember(ccs: seq<seq<ObjectKey>>, k: ObjectKey)
    ensures k in Flatten(ccs) <==> exists i :: 0 <= i < |ccs| && k in ccs[i]
    decreases |ccs|
  {
    if |ccs| > 0 {
      FlattenMember(ccs[..|ccs| - 1], k);
      assert forall i :: 0 <= i < |ccs| - 1 ==> ccs[..|ccs| - 1][i] == ccs[i];
    }
  }

  /** In a duplicate-free flattening, a component shares no key with the ones before it. */
  lemma {:induction false} FlattenDisjoint(ccs: seq<seq<ObjectKey>>, i: nat, k: ObjectKey)
    requires i < |ccs| && Distinct(Flatten(ccs))
    requires k in ccs[i]
    ensures k !in Flatten(ccs[..i])
    decreases |ccs|
  {
    var init := ccs[..|ccs| - 1];
    assert Flatten(ccs) == Flatten(init) + ccs[|ccs| - 1];
    if i == |ccs| - 1 {
      assert init == ccs[..i];
      forall a, b | 0 <= a < |Flatten(init)| && 0 <= b < |ccs[i]| ensures Flatten(init)[a] != ccs[i][b] {
        assert Flatten(ccs)[a] == Flatten(init)[a];
        assert Flatten(ccs)[|Flatten(init)| + b] == ccs[i][b];
      }
    } else {
      assert Distinct(Flatten(init)) by {
        forall a, b | 0 <= a < b < |Flatten(init)| ensures Flatten(init)[a] != Flatten(init)[b] {
          assert Flatten(ccs)[a] == Flatten(init)[a] && Flatten(ccs)[b] == Flatten(init)[b];
        }
      }
      assert init[i] == ccs[i] && init[..i] == ccs[..i];
      FlattenDisjoint(init, i, k);
    }
  }

  /** The parts of a duplicate-free flattening are duplicate-free. */
  lemma {:induction false} FlattenPartDistinct(ccs: seq<seq<ObjectKey>>, j: nat)
    requires j < |ccs| && Distinct(Flatten(ccs))
    ensures Distinct(ccs[j])
    decreases |ccs|
  {
    var init := ccs[..|ccs| - 1];
    assert Flatten(ccs) == Flatten(init) + ccs[|ccs| - 1];
    if j == |ccs| - 1 {
      forall a, b | 0 <= a < b < |ccs[j]| ensures ccs[j][a] != ccs[j][b] {
        assert Flatten(ccs)[|Flatten(init)| + a] == ccs[j][a];
        assert Flatten(ccs)[|Flatten(init)| + b] == ccs[j][b];
      }
    } else {
      assert Distinct(Flatten(init)) by {
        forall a, b | 0 <= a < b < |Flatten(init)| ensures Flatten(init)[a] != Flatten(init)[b] {
          assert Flatten(ccs)[a] == Flatten(init)[a] && Flatten(ccs)[b] == Flatten(init)[b];
        }
      }
      assert init[j] == ccs[j];
      FlattenPartDistinct(init, j);
    }
  }

  lemma ConcatDistinct(a: seq<ObjectKey>, b: seq<ObjectKey>)
    requires Distinct(a) && Distinct(b)
    requires forall k :: k in b ==> k !in a
    ensures Distinct(a + b)
  {
    forall i, j | 0 <= i < j < |a + b| ensures (a + b)[i] != (a + b)[j] {
      if j < |a| {
        assert (a + b)[i] == a[i] && (a + b)[j] == a[j];
      } else if i < |a| {
        assert (a + b)[i] == a[i] && (a + b)[j] == b[j - |a|];
        assert b[j - |a|] in b;
      } else {
        assert (a + b)[i] == b[i - |a|] && (a + b)[j] == b[j - |a|];
      }
    }
  }

  /** `cc'` extends `cc` by fresh, distinct keys, and `inCC'` adds exactly those to `inCC`. */
  ghost predicate Walk(cc: seq<ObjectKey>, inCC: set<ObjectKey>, cc': seq<ObjectKey>, inCC': set<ObjectKey>) {
    && |cc'| > |cc| && cc'[..|cc|] == cc
    && inCC' == inCC + (set k | k in cc'[|cc|..])
    && (forall k :: k in cc'[|cc|..] ==> k !in inCC)
    && Distinct(cc'[|cc|..])
  }

  /** A walk keeps what was visited and visits where it starts. */
  lemma WalkGrows(cc: seq<ObjectKey>, inCC: set<ObjectKey>, cc': seq<ObjectKey>, inCC': set<ObjectKey>)
    requires Walk(cc, inCC, cc', inCC')
    ensures inCC <= inCC' && cc'[|cc|] in inCC'
  {
    assert cc'[|cc|] == cc'[|cc|..][0];
  }

  lemma WalkTransitive(cc: seq<ObjectKey>, inCC: set<ObjectKey>, cc1: seq<ObjectKey>, in1: set<ObjectKey>,
                       cc2: seq<ObjectKey>, in2: set<ObjectKey>)
    requires Walk(cc, inCC, cc1, in1) && Walk(cc1, in1, cc2, in2)
    ensures Walk(cc, inCC, cc2, in2)
    ensures cc2[|cc|] == cc1[|cc|]
    ensures forall k :: k in cc2[|cc|..] ==> k in cc1[|cc|..] || k in cc2[|cc1|..]
  {
    assert cc2[|cc|..] == cc1[|cc|..] + cc2[|cc1|..];
    forall k | k in cc2[|cc1|..] ensures k !in cc1[|cc|..] {
      assert k !in in1;
    }
    ConcatDistinct(cc1[|cc|..], cc2[|cc1|..]);
  }

  /** Every owner of an object in `s` appears before it. */
  predicate OwnersFirstIn(s: seq<ObjectKey>, ownerRefs: map<ObjectKey, seq<ObjectKey>>) {
    forall i, o :: 0 <= i < |s| && o in Get(ownerRefs, s[i]) ==> o in s[..i]
  }

  /** The first half of `buildGraph`: every object under its key, later objects replacing
      earlier ones with the same key, and the keys in input order. */
  method IndexObjects(objs: seq<Object>) returns (byName: map<ObjectKey, Object>, names: seq<ObjectKey>)
    ensures byName == Index(objs)
    ensures names == Keys(objs)
    ensures forall k :: k in byName ==> Key(byName[k]) == k
    ensures forall k :: k in names <==> k in byName
  {
    byName, names := map[], [];
    for i := 0 to |objs|
      invariant byName == Index(objs[..i])
      invariant names == Keys(objs[..i])
    {
      assert objs[..i + 1][..i] == objs[..i];
      byName := byName[Key(objs[i]) := objs[i]];
      names := names + [Key(objs[i])];
    }
    assert objs[..|objs|] == objs;
  }

  /** The second half of `buildGraph`: for every owner reference naming an object in `byName`,
      the owner edge in `owners` and its reverse in `owning`. */
  method OwnerEdges(objs: seq<Object>, byName: map<ObjectKey, Object>)
      returns (owning: map<ObjectKey, seq<ObjectKey>>, owners: map<ObjectKey, seq<ObjectKey>>)
    requires forall k :: k in Keys(objs) ==> k in byName
    ensures Represents(owners, EdgesOf(objs, |objs|, byName))
    ensures Inverse(owning, owners)
    ensures Within(owners, byName)
  {
    owning := map[];
    owners := map[];
    for i := 0 to |objs|
      invariant Represents(owners, EdgesOf(objs, i, byName))
      invariant Inverse(owning, owners)
      invariant Within(owners, byName)
    {
      var obj := objs[i];
      var objKey := Key(obj);
      assert objKey in Keys(objs);
      assert objKey in byName;
      owning, owners := RefOwnerEdges(obj, byName, owning, owners, EdgesOf(objs, i, byName));
    }
  }

  /** The inner loop of the second half of `buildGraph`: the owner references of one object
      whose key is in `byName`. */
  method RefOwnerEdges(obj: Object, byName: map<ObjectKey, Object>,
                       owning0: map<ObjectKey, seq<ObjectKey>>, owners0: map<ObjectKey, seq<ObjectKey>>,
                       ghost edges: set<(ObjectKey, ObjectKey)>)
      returns (owning: map<ObjectKey, seq<ObjectKey>>, owners: map<ObjectKey, seq<ObjectKey>>)
    requires Key(obj) in byName
    requires Represents(owners0, edges)
    requires Inverse(owning0, owners0)
    requires Within(owners0, byName)
    ensures Represents(owners, edges + RefEdges(obj, |obj.meta.ownerReferences|, byName))
    ensures Inverse(owning, owners)
    ensures Within(owners, byName)
  {
    owning, owners := owning0, owners0;
    var objKey := Key(obj);
    var refs := obj.meta.ownerReferences;
    for j := 0 to |refs|
      invariant Represents(owners, edges + RefEdges(obj, j, byName))
      invariant Inverse(owning, owners)
      invariant Within(owners, byName)
    {
      var ownerKey := OwnerKey(obj, refs[j]);
      if ownerKey in byName {
        AppendInverse(owning, owners, objKey, ownerKey);
        AppendRepresents(owners, edges + RefEdges(obj, j, byName), objKey, ownerKey);
        AppendWithin(owners, byName, objKey, ownerKey);
        owners := Append(owners, objKey, ownerKey);
        owning := Append(owning, ownerKey, objKey);
      }
    }
  }

  /** Two lists that each put owners first still do when concatenated. */
  lemma OwnersFirstConcat(a: seq<ObjectKey>, b: seq<ObjectKey>, ownerRefs: map<ObjectKey, seq<ObjectKey>>)
    requires OwnersFirstIn(a, ownerRefs) && OwnersFirstIn(b, ownerRefs)
    ensures OwnersFirstIn(a + b, ownerRefs)
  {
    forall n, o | 0 <= n < |a + b| && o in Get(ownerRefs, (a + b)[n]) ensures o in (a + b)[..n] {
      if n < |a| {
        assert (a + b)[..n] == a[..n];
      } else {
        assert (a + b)[..n] == a + b[..n - |a|];
        assert (a + b)[n] == b[n - |a|];
      }
    }
  }

  /** `objectGraph`. */
  class ObjectGraph {
    var byName: map<ObjectKey, Object>
    var names: seq<ObjectKey>
    /** For each key, the keys of the objects it owns. */
    var owningRefs: map<ObjectKey, seq<ObjectKey>>
    /** For each key, the keys of its owners. */
    var ownerRefs: map<ObjectKey, seq<ObjectKey>>

    function Owners(k: ObjectKey): seq<ObjectKey>
      reads this`ownerRefs
    {
      Get(ownerRefs, k)
    }

    function Owned(k: ObjectKey): seq<ObjectKey>
      reads this`owningRefs
    {
      Get(owningRefs, k)
    }

    /** Connected in the undirected ownership graph `findCC` walks. */
    predicate Adjacent(a: ObjectKey, b: ObjectKey)
      reads this`ownerRefs, this`owningRefs
    {
      b in Owners(a) || b in Owned(a)
    }

    /** Owners of every listed object precede it; the order the sort establishes. */
    predicate OwnersFirst(s: seq<ObjectKey>)
      reads this`ownerRefs
    {
      OwnersFirstIn(s, ownerRefs)
    }

    /** A ranking that every owner edge climbs; one exists exactly when ownership is acyclic. */
    ghost predicate Ranked(rank: ObjectKey -> int)
      reads this`ownerRefs
    {
      forall a, b :: b in Owners(a) ==> rank(a) < rank(b)
    }

    ghost predicate Valid()
      reads this
    {
      Wired() && forall k :: k in names <==> k in byName
    }

    /** The index and the two edge maps agree, whatever the name list. */
    ghost predicate Wired()
      reads this`byName, this`ownerRefs, this`owningRefs
    {
      && (forall k :: k in byName ==> Key(byName[k]) == k)
      && (forall a, b {:trigger b in Owners(a)} :: b in Owners(a) ==> a in byName && b in byName)
      && (forall a, b :: b in Owned(a) <==> a in Owners(b))
    }

    lemma AdjacentSymmetric(a: ObjectKey, b: ObjectKey)
      requires Valid()
      ensures Adjacent(a, b) <==> Adjacent(b, a)
    {
    }

    /** `p` steps from each key to an adjacent one. */
    ghost predicate Trail(p: seq<ObjectKey>)
      reads this`ownerRefs, this`owningRefs
    {
      |p| > 0 && forall i :: 0 <= i < |p| - 1 ==> Adjacent(p[i], p[i + 1])
    }

    /** `b` can be reached from `a` along owner and owned edges. */
    ghost predicate Reachable(a: ObjectKey, b: ObjectKey)
      reads this`ownerRefs, this`owningRefs
    {
      exists p :: Trail(p) && p[0] == a && p[|p| - 1] == b
    }

    lemma ReachSelf(a: ObjectKey)
      ensures Reachable(a, a)
    {
      assert Trail([a]);
    }

    /** A step to an adjacent key, then on to what that key reaches. */
    lemma ReachPrepend(a: ObjectKey, b: ObjectKey, c: ObjectKey)
      requires Adjacent(a, b) && Reachable(b, c)
      ensures Reachable(a, c)
    {
      var p :| Trail(p) && p[0] == b && p[|p| - 1] == c;
      var q := [a] + p;
      forall i | 0 <= i < |q| - 1 ensures Adjacent(q[i], q[i + 1]) {
        if i > 0 {
          assert q[i] == p[i - 1] && q[i + 1] == p[i];
        }
      }
      assert Trail(q) && q[0] == a && q[|q| - 1] == c;
    }

    /** A trail that starts in a part closed under adjacency stays in it. */
    lemma {:induction false} TrailInside(part: seq<ObjectKey>, p: seq<ObjectKey>, j: nat)
      requires forall y, z :: y in part && Adjacent(y, z) ==> z in part
      requires Trail(p) && p[0] in part && j < |p|
      ensures p[j] in part
      decreases j
    {
      if j > 0 {
        TrailInside(part, p, j - 1);
        assert Adjacent(p[j - 1], p[j]);
      }
    }

    /** A part closed under adjacency holds everything its members reach. */
    lemma ClosedReach(part: seq<ObjectKey>, a: ObjectKey, b: ObjectKey)
      requires forall y, z :: y in part && Adjacent(y, z) ==> z in part
      requires a in part && Reachable(a, b)
      ensures b in part
    {
      var p :| Trail(p) && p[0] == a && p[|p| - 1] == b;
      TrailInside(part, p, |p| - 1);
    }

    /** `buildGraph`: the index by key, the keys in input order, and an owner edge for every
        owner reference that names a listed object. */
    constructor Build(objs: seq<Object>)
      ensures Valid()
      ensures byName == Index(objs)
      ensures names == Keys(objs)
      ensures forall a, b :: b in Owners(a) <==> (a, b) in Edges(objs)
    {
      var objByName, objNames := IndexObjects(objs);
      var owning, owners := OwnerEdges(objs, objByName);
      byName := objByName;
      names := objNames;
      owningRefs := owning;
      ownerRefs := owners;
      new;
      assert forall a :: Owners(a) == Get(owners, a) && Owned(a) == Get(owning, a);
    }

    /** `findCC`: adds `objName` and, depth first, everything reachable from it through owned
        and owner edges that is not yet in `inCC`. */
    method FindCC(objName: ObjectKey, cc: seq<ObjectKey>, inCC: set<ObjectKey>)
        returns (cc': seq<ObjectKey>, inCC': set<ObjectKey>)
      requires Valid()
      requires objName in byName && objName !in inCC
      requires inCC <= byName.Keys
      ensures Found(objName, cc, inCC, cc', inCC')
      decreases byName.Keys - inCC, 2
    {
      cc', inCC' := cc + [objName], inCC + {objName};
      FindStart(objName, cc, inCC);
      cc', inCC' := FindFrom(objName, Owned(objName), cc, inCC, inCC + {objName}, cc', inCC');
      ghost var in1 := inCC';
      FindMiddle(objName, cc, inCC, inCC + {objName}, cc', inCC');
      cc', inCC' := FindFrom(objName, Owners(objName), cc, inCC, in1, cc', inCC');
      FindDone(objName, cc, inCC, in1, cc', inCC');
    }

    /** What `findCC` from `objName` leaves: `cc'` extends `cc` by a walk that starts at `objName`,
        is closed under adjacency and holds only keys `objName` reaches. */
    ghost predicate Found(objName: ObjectKey, cc: seq<ObjectKey>, inCC: set<ObjectKey>,
                          cc': seq<ObjectKey>, inCC': set<ObjectKey>)
      reads this
    {
      && Walk(cc, inCC, cc', inCC') && cc'[|cc|] == objName
      && inCC' <= byName.Keys
      && (forall y, z :: y in cc'[|cc|..] && Adjacent(y, z) ==> z in inCC')
      && (forall k :: k in cc'[|cc|..] ==> Reachable(objName, k))
    }

    /** One of the two loops of `findCC`: walks on from each neighbour of `objName` in
        `neighbours` that is not yet in a component. */
    method FindFrom(objName: ObjectKey, neighbours: seq<ObjectKey>, ghost cc: seq<ObjectKey>, ghost inCC: set<ObjectKey>,
                    ghost inCC0: set<ObjectKey>, cc0: seq<ObjectKey>, in0: set<ObjectKey>)
        returns (cc': seq<ObjectKey>, inCC': set<ObjectKey>)
      requires Valid()
      requires forall z :: z in neighbours ==> Adjacent(objName, z)
      requires objName in byName && objName !in inCC
      requires Reaching(objName, neighbours, cc, inCC, inCC0, 0, cc0, in0)
      ensures Reaching(objName, neighbours, cc, inCC, inCC0, |neighbours|, cc', inCC')
      decreases byName.Keys - inCC, 1
    {
      cc', inCC' := cc0, in0;
      for i := 0 to |neighbours|
        invariant Reaching(objName, neighbours, cc, inCC, inCC0, i, cc', inCC')
      {
        cc', inCC' := FindNext(objName, neighbours, cc, inCC, inCC0, i, cc', inCC');
      }
    }

    /** The loop invariant of `FindFrom` after the first `i` neighbours: the walk from `cc` and
        `inCC` still starts at `objName`, has only grown, stays closed under adjacency except at
        `objName`, holds only keys `objName` reaches, and has reached those neighbours. */
    ghost predicate Reaching(objName: ObjectKey, neighbours: seq<ObjectKey>, cc: seq<ObjectKey>, inCC: set<ObjectKey>,
                             inCC0: set<ObjectKey>, i: nat, cc': seq<ObjectKey>, inCC': set<ObjectKey>)
      reads this
    {
      && i <= |neighbours|
      && Walk(cc, inCC, cc', inCC') && cc'[|cc|] == objName
      && inCC0 <= inCC' <= byName.Keys
      && (forall y, z :: y in cc'[|cc|..] && y != objName && Adjacent(y, z) ==> z in inCC')
      && (forall j :: 0 <= j < i ==> neighbours[j] in inCC')
      && (forall k :: k in cc'[|cc|..] ==> Reachable(objName, k))
    }

    /** `findCC` before its loops: `objName` alone is added. */
    lemma FindStart(objName: ObjectKey, cc: seq<ObjectKey>, inCC: set<ObjectKey>)
      requires objName in byName && objName !in inCC && inCC <= byName.Keys
      ensures Reaching(objName, Owned(objName), cc, inCC, inCC + {objName}, 0, cc + [objName], inCC + {objName})
    {
      var cc' := cc + [objName];
      assert cc'[|cc|..] == [objName];
      assert cc'[..|cc|] == cc;
      assert inCC + {objName} == inCC + set k | k in cc'[|cc|..];
      ReachSelf(objName);
    }

    /** `findCC` between its loops: the owned keys are all reached. */
    lemma FindMiddle(objName: ObjectKey, cc: seq<ObjectKey>, inCC: set<ObjectKey>, inCC0: set<ObjectKey>,
                     cc1: seq<ObjectKey>, in1: set<ObjectKey>)
      requires Reaching(objName, Owned(objName), cc, inCC, inCC0, |Owned(objName)|, cc1, in1)
      ensures Reaching(objName, Owners(objName), cc, inCC, in1, 0, cc1, in1)
      ensures forall z :: z in Owned(objName) ==> z in in1
    {
    }

    /** `findCC` after its loops: every neighbour of `objName` is reached, so the walk is closed. */
    lemma FindDone(objName: ObjectKey, cc: seq<ObjectKey>, inCC: set<ObjectKey>, in1: set<ObjectKey>,
                   cc2: seq<ObjectKey>, in2: set<ObjectKey>)
      requires forall z :: z in Owned(objName) ==> z in in1
      requires Reaching(objName, Owners(objName), cc, inCC, in1, |Owners(objName)|, cc2, in2)
      ensures Found(objName, cc, inCC, cc2, in2)
    {
      forall y, z | y in cc2[|cc|..] && Adjacent(y, z) ensures z in in2 {
        if y == objName && z in Owners(objName) {
          var j :| 0 <= j < |Owners(objName)| && Owners(objName)[j] == z;
        }
      }
    }

    /** One round of a loop of `findCC`: walks on from `neighbours[i]` unless it is already in a
        component. */
    method FindNext(objName: ObjectKey, neighbours: seq<ObjectKey>, ghost cc: seq<ObjectKey>, ghost inCC: set<ObjectKey>,
                    ghost inCC0: set<ObjectKey>, i: nat, cc1: seq<ObjectKey>, in1: set<ObjectKey>)
        returns (cc': seq<ObjectKey>, inCC': set<ObjectKey>)
      requires Valid()
      requires forall z :: z in neighbours ==> Adjacent(objName, z)
      requires objName in byName && objName !in inCC
      requires i < |neighbours| && Reaching(objName, neighbours, cc, inCC, inCC0, i, cc1, in1)
      ensures Reaching(objName, neighbours, cc, inCC, inCC0, i + 1, cc', inCC')
      decreases byName.Keys - inCC, 0
    {
      cc', inCC' := cc1, in1;
      if neighbours[i] !in inCC' {
        FindPre(objName, neighbours[i], cc, inCC, cc1, in1);
        cc', inCC' := FindCC(neighbours[i], cc', inCC');
        FindStep(objName, neighbours, cc, inCC, inCC0, i, cc1, in1, cc', inCC');
      }
    }

    /** A neighbour of `objName` not yet reached can start a nested walk, on fewer unvisited
        keys. */
    lemma FindPre(objName: ObjectKey, z: ObjectKey, cc: seq<ObjectKey>, inCC: set<ObjectKey>,
                  cc1: seq<ObjectKey>, in1: set<ObjectKey>)
      requires Valid() && Adjacent(objName, z)
      requires objName in byName && objName !in inCC
      requires Walk(cc, inCC, cc1, in1) && cc1[|cc|] == objName && in1 <= byName.Keys
      ensures z in byName
      ensures byName.Keys - in1 < byName.Keys - inCC
    {
      AdjacentSymmetric(objName, z);
      if z !in Owners(objName) {
        assert objName in Owners(z);
      }
      WalkGrows(cc, inCC, cc1, in1);
    }

    /** The walk after a nested `findCC` from `neighbours[i]` keeps the invariant of `FindFrom`. */
    lemma FindStep(objName: ObjectKey, neighbours: seq<ObjectKey>, cc: seq<ObjectKey>, inCC: set<ObjectKey>,
                   inCC0: set<ObjectKey>, i: nat, cc1: seq<ObjectKey>, in1: set<ObjectKey>,
                   cc2: seq<ObjectKey>, in2: set<ObjectKey>)
      requires i < |neighbours| && Adjacent(objName, neighbours[i])
      requires Reaching(objName, neighbours, cc, inCC, inCC0, i, cc1, in1)
      requires Found(neighbours[i], cc1, in1, cc2, in2)
      ensures Reaching(objName, neighbours, cc, inCC, inCC0, i + 1, cc2, in2)
    {
      WalkTransitive(cc, inCC, cc1, in1, cc2, in2);
      WalkGrows(cc1, in1, cc2, in2);
      SeenStill(neighbours, i, in1, in2);
      ClosedStep(cc, objName, cc1, in1, cc2, in2);
      ReachThrough(objName, neighbours[i], cc, cc1, cc2);
    }

    /** What a nested walk from a neighbour `z` of `objName` adds is reachable from `objName`. */
    lemma ReachThrough(objName: ObjectKey, z: ObjectKey, cc: seq<ObjectKey>, cc1: seq<ObjectKey>, cc2: seq<ObjectKey>)
      requires Adjacent(objName, z)
      requires |cc| <= |cc1| <= |cc2|
      requires forall k :: k in cc1[|cc|..] ==> Reachable(objName, k)
      requires forall k :: k in cc2[|cc1|..] ==> Reachable(z, k)
      requires forall k :: k in cc2[|cc|..] ==> k in cc1[|cc|..] || k in cc2[|cc1|..]
      ensures forall k :: k in cc2[|cc|..] ==> Reachable(objName, k)
    {
      forall k | k in cc2[|cc1|..] ensures Reachable(objName, k) {
        ReachPrepend(objName, z, k);
      }
    }

    /** A walk's components only gain keys from a nested walk that found the rest. */
    lemma ClosedStep(cc: seq<ObjectKey>, objName: ObjectKey, cc1: seq<ObjectKey>, in1: set<ObjectKey>,
                     cc2: seq<ObjectKey>, in2: set<ObjectKey>)
      requires |cc| <= |cc1| <= |cc2|
      requires forall y, z :: y in cc1[|cc|..] && y != objName && Adjacent(y, z) ==> z in in1
      requires forall y, z :: y in cc2[|cc1|..] && Adjacent(y, z) ==> z in in2
      requires in1 <= in2
      requires forall k :: k in cc2[|cc|..] ==> k in cc1[|cc|..] || k in cc2[|cc1|..]
      ensures forall y, z :: y in cc2[|cc|..] && y != objName && Adjacent(y, z) ==> z in in2
    {
    }

    /** `connectedComponents`: the components of the undirected ownership graph, each started at
        the first key of `names` not yet placed; the components partition the keys, each is
        exactly what its first key reaches, and they come in order of their first key. */
    method ConnectedComponents() returns (ccs: seq<seq<ObjectKey>>, ghost roots: seq<nat>)
      requires Valid()
      ensures Covers(ccs)
      ensures Partitioned(ccs, roots)
    {
      ccs, roots := [], [];
      var inCC: set<ObjectKey> := {};
      for n := 0 to |names|
        invariant Partition(ccs, roots, inCC, n)
      {
        ccs, roots, inCC := NextComponent(ccs, roots, inCC, n);
      }
      PartitionDone(ccs, roots, inCC);
      ComponentsReach(ccs);
    }

    /** The components partition the keys without repeats, and each is closed under adjacency. */
    ghost predicate Covers(ccs: seq<seq<ObjectKey>>)
      reads this
    {
      && Distinct(Flatten(ccs))
      && (forall k :: k in Flatten(ccs) <==> k in byName)
      && (forall i, k :: 0 <= i < |ccs| && k in ccs[i] ==> k in byName)
      && (forall i, y, z :: 0 <= i < |ccs| && y in ccs[i] && Adjacent(y, z) ==> z in ccs[i])
    }

    /** What `connectedComponents` returns: components that cover the keys, each started at
        `names[roots[i]]`, the first of its keys in `names`, with increasing roots, and each
        exactly what its first key reaches. */
    ghost predicate Partitioned(ccs: seq<seq<ObjectKey>>, roots: seq<nat>)
      reads this
    {
      && Covers(ccs)
      && |roots| == |ccs|
      && (forall i :: 0 <= i < |ccs| ==> |ccs[i]| > 0 && roots[i] < |names| && ccs[i][0] == names[roots[i]])
      && (forall i, j :: 0 <= i < j < |ccs| ==> roots[i] < roots[j])
      && (forall i, p :: 0 <= i < |ccs| && 0 <= p < roots[i] ==> names[p] !in ccs[i])
      && (forall i, k :: 0 <= i < |ccs| ==> (k in ccs[i] <==> Reachable(ccs[i][0], k)))
    }

    /** A component closed under adjacency and made of keys its first key reaches is exactly what
        that key reaches. */
    lemma ComponentsReach(ccs: seq<seq<ObjectKey>>)
      requires forall i :: 0 <= i < |ccs| ==> |ccs[i]| > 0
      requires forall i, y, z :: 0 <= i < |ccs| && y in ccs[i] && Adjacent(y, z) ==> z in ccs[i]
      requires Spanned(ccs)
      ensures forall i, k :: 0 <= i < |ccs| ==> (k in ccs[i] <==> Reachable(ccs[i][0], k))
    {
      forall i, k | 0 <= i < |ccs| && Reachable(ccs[i][0], k) ensures k in ccs[i] {
        ClosedReach(ccs[i], ccs[i][0], k);
      }
    }

    /** Every key of a component is reached from its first key. */
    ghost predicate Spanned(ccs: seq<seq<ObjectKey>>)
      reads this`ownerRefs, this`owningRefs
    {
      forall i, k :: 0 <= i < |ccs| && |ccs[i]| > 0 && k in ccs[i] ==> Reachable(ccs[i][0], k)
    }

    lemma SpannedStep(ccs: seq<seq<ObjectKey>>, cc: seq<ObjectKey>)
      requires Spanned(ccs) && |cc| > 0
      requires forall k :: k in cc ==> Reachable(cc[0], k)
      ensures Spanned(ccs + [cc])
    {
    }

    /** One round of the loop of `connectedComponents`: the name at position `n` starts a new
        component unless an earlier component already holds it. */
    method NextComponent(ccs: seq<seq<ObjectKey>>, ghost roots: seq<nat>, inCC: set<ObjectKey>, n: nat)
        returns (ccs': seq<seq<ObjectKey>>, ghost roots': seq<nat>, inCC': set<ObjectKey>)
      requires Valid() && Partition(ccs, roots, inCC, n) && n < |names|
      ensures Partition(ccs', roots', inCC', n + 1)
    {
      var objName := names[n];
      if objName in inCC {
        PartitionSkip(ccs, roots, inCC, n);
        ccs', roots', inCC' := ccs, roots, inCC;
      } else {
        var cc, found := FindCC(objName, [], inCC);
        PartitionStep(ccs, roots, inCC, n, cc, found);
        ghost var root: seq<nat> := [n];
        ccs', roots', inCC' := ccs + [cc], roots + root, found;
      }
    }

    /** Once every name is visited, the partition covers `byName`. */
    lemma PartitionDone(ccs: seq<seq<ObjectKey>>, roots: seq<nat>, inCC: set<ObjectKey>)
      requires Valid() && Partition(ccs, roots, inCC, |names|)
      ensures |roots| == |ccs|
      ensures forall i :: 0 <= i < |ccs| ==> |ccs[i]| > 0 && roots[i] < |names| && ccs[i][0] == names[roots[i]]
      ensures forall i, j :: 0 <= i < j < |ccs| ==> roots[i] < roots[j]
      ensures forall i, p :: 0 <= i < |ccs| && 0 <= p < roots[i] ==> names[p] !in ccs[i]
      ensures Distinct(Flatten(ccs))
      ensures forall k :: k in Flatten(ccs) <==> k in byName
      ensures forall i, y, z :: 0 <= i < |ccs| && y in ccs[i] && Adjacent(y, z) ==> z in ccs[i]
      ensures Spanned(ccs)
      ensures Covers(ccs)
    {
      forall k | k in byName
        ensures k in inCC
      {
        var p :| 0 <= p < |names| && names[p] == k;
      }
      forall i, k | 0 <= i < |ccs| && k in ccs[i]
        ensures k in byName
      {
        FlattenMember(ccs, k);
      }
    }

    /** The facts the loop of `ConnectedComponents` keeps after visiting the first `n` names: the
        components found are rooted at visited names, closed under adjacency and, without
        duplicates, make up exactly the visited keys. */
    ghost predicate Partition(ccs: seq<seq<ObjectKey>>, roots: seq<nat>, inCC: set<ObjectKey>, n: nat)
      reads this
    {
      && n <= |names|
      && Rooted(ccs, roots, n)
      && Distinct(Flatten(ccs))
      && (forall k :: k in Flatten(ccs) <==> k in inCC)
      && inCC <= byName.Keys
      && (forall p :: 0 <= p < n ==> names[p] in inCC)
      && (forall i, y, z :: 0 <= i < |ccs| && y in ccs[i] && Adjacent(y, z) ==> z in ccs[i])
      && Spanned(ccs)
    }

    lemma PartitionSkip(ccs: seq<seq<ObjectKey>>, roots: seq<nat>, inCC: set<ObjectKey>, n: nat)
      requires Partition(ccs, roots, inCC, n) && n < |names| && names[n] in inCC
      ensures Partition(ccs, roots, inCC, n + 1)
    {
    }

    /** A component found from an unvisited name extends the partition. */
    lemma PartitionStep(ccs: seq<seq<ObjectKey>>, roots: seq<nat>, inCC: set<ObjectKey>, n: nat,
                        cc: seq<ObjectKey>, inCC': set<ObjectKey>)
      requires Valid()
      requires Partition(ccs, roots, inCC, n) && n < |names| && names[n] !in inCC
      requires Found(names[n], [], inCC, cc, inCC')
      ensures Partition(ccs + [cc], roots + [n], inCC', n + 1)
    {
      assert cc[0..] == cc;
      SpannedStep(ccs, cc);
      assert inCC' == inCC + set k | k in cc;
      assert names[n] in cc;
      VisitedGrow(n, inCC, inCC');
      AddComponent(ccs, inCC, cc, inCC');
      RootedStep(ccs, roots, n, cc, inCC);
    }

    ghost predicate Rooted(ccs: seq<seq<ObjectKey>>, roots: seq<nat>, n: nat)
      reads this`names
      requires n <= |names|
    {
      && |roots| == |ccs|
      && (forall i :: 0 <= i < |ccs| ==> |ccs[i]| > 0 && roots[i] < n && ccs[i][0] == names[roots[i]])
      && (forall i, j :: 0 <= i < j < |ccs| ==> roots[i] < roots[j])
      && (forall i, p :: 0 <= i < |ccs| && 0 <= p < roots[i] ==> names[p] !in ccs[i])
    }

    /** Growing the visited set keeps the first `n` names visited, and adds the next one. */
    lemma VisitedGrow(n: nat, inCC: set<ObjectKey>, inCC': set<ObjectKey>)
      requires n < |names|
      requires forall p :: 0 <= p < n ==> names[p] in inCC
      requires inCC <= inCC' && names[n] in inCC'
      ensures forall p :: 0 <= p < n + 1 ==> names[p] in inCC'
    {
    }

    lemma RootedStep(ccs: seq<seq<ObjectKey>>, roots: seq<nat>, n: nat, cc: seq<ObjectKey>, inCC: set<ObjectKey>)
      requires n < |names| && Rooted(ccs, roots, n)
      requires |cc| > 0 && cc[0] == names[n]
      requires forall p :: 0 <= p < n ==> names[p] in inCC
      requires forall k :: k in cc ==> k !in inCC
      ensures Rooted(ccs + [cc], roots + [n], n + 1)
    {
    }

    /** Adding a component found by `findCC` keeps the components a closed, duplicate-free
        partition of the visited keys. */
    lemma AddComponent(ccs: seq<seq<ObjectKey>>, inCC: set<ObjectKey>, cc: seq<ObjectKey>, inCC': set<ObjectKey>)
      requires Valid()
      requires Distinct(Flatten(ccs))
      requires forall k :: k in Flatten(ccs) <==> k in inCC
      requires forall i, y, z :: 0 <= i < |ccs| && y in ccs[i] && Adjacent(y, z) ==> z in ccs[i]
      requires inCC' == inCC + set k | k in cc
      requires forall k :: k in cc ==> k !in inCC
      requires Distinct(cc)
      requires forall y, z :: y in cc && Adjacent(y, z) ==> z in inCC'
      ensures Distinct(Flatten(ccs + [cc]))
      ensures forall k :: k in Flatten(ccs + [cc]) <==> k in inCC'
      ensures forall i, y, z :: 0 <= i < |ccs + [cc]| && y in (ccs + [cc])[i] && Adjacent(y, z) ==> z in (ccs + [cc])[i]
    {
      assert (ccs + [cc])[..|ccs|] == ccs;
      assert Flatten(ccs + [cc]) == Flatten(ccs) + cc;
      ConcatDistinct(Flatten(ccs), cc);
      forall y, z | y in cc && Adjacent(y, z) ensures z in cc {
        if z in inCC {
          FlattenMember(ccs, z);
          var i :| 0 <= i < |ccs| && z in ccs[i];
          AdjacentSymmetric(y, z);
          assert y in ccs[i];
          FlattenMember(ccs, y);
          assert false;
        }
      }
    }

    /** The owners of `objName` in key order, as `topologicalSortVisit` walks them. */
    function SortedOwners(objName: ObjectKey): (r: seq<ObjectKey>)
      reads this`ownerRefs
      ensures forall k :: k in r <==> k in Owners(objName)
      ensures Sorted(r, KeyLess)
    {
      SortKeys(Owners(objName))
    }

    /** The output and the visited set after `topologicalSortVisit(objName)`, from those before
        it: each owner of `objName` in key order that is not yet visited, visited depth first,
        then `objName` itself. */
    ghost function DfsVisit(objName: ObjectKey, out: seq<ObjectKey>, visited: set<ObjectKey>): (r: (seq<ObjectKey>, set<ObjectKey>))
      reads this`byName, this`ownerRefs
      requires objName in byName && objName !in visited
      ensures visited + {objName} <= r.1
      decreases byName.Keys - visited, 0
    {
      var owners := DfsOwners(SortedOwners(objName), 0, out, visited + {objName});
      (owners.0 + [objName], owners.1)
    }

    /** `DfsVisit` in turn from each key of `ownerNames` from position `i` on that is not yet
        visited. */
    ghost function DfsOwners(ownerNames: seq<ObjectKey>, i: nat, out: seq<ObjectKey>, visited: set<ObjectKey>)
      : (r: (seq<ObjectKey>, set<ObjectKey>))
      reads this`byName, this`ownerRefs
      requires i <= |ownerNames|
      ensures visited <= r.1
      decreases byName.Keys - visited, 1, |ownerNames| - i
    {
      if i == |ownerNames| then (out, visited)
      else if ownerNames[i] in visited || ownerNames[i] !in byName then DfsOwners(ownerNames, i + 1, out, visited)
      else
        var next := DfsVisit(ownerNames[i], out, visited);
        assert byName.Keys - next.1 < byName.Keys - visited by {
          assert ownerNames[i] in byName.Keys - visited;
        }
        DfsOwners(ownerNames, i + 1, next.0, next.1)
    }

    /** The loop of `topologicalSort` from position `i` of `objNames` on: each key not yet
        visited is visited depth first. */
    ghost function DfsAll(objNames: seq<ObjectKey>, i: nat, out: seq<ObjectKey>, visited: set<ObjectKey>)
      : (seq<ObjectKey>, set<ObjectKey>)
      reads this`byName, this`ownerRefs
      requires i <= |objNames|
      decreases |objNames| - i
    {
      if i == |objNames| then (out, visited)
      else if objNames[i] in visited || objNames[i] !in byName then DfsAll(objNames, i + 1, out, visited)
      else
        var next := DfsVisit(objNames[i], out, visited);
        DfsAll(objNames, i + 1, next.0, next.1)
    }

    /** The order `topologicalSort` gives `objNames`. */
    ghost function DfsOrder(objNames: seq<ObjectKey>): seq<ObjectKey>
      reads this`byName, this`ownerRefs
    {
      DfsAll(objNames, 0, [], {}).0
    }

    /** The order `sortObjects` gives a component: its keys sorted, then visited depth first. */
    ghost function ComponentOrder(cc: seq<ObjectKey>): seq<ObjectKey>
      reads this`byName, this`ownerRefs
    {
      DfsOrder(SortKeys(cc))
    }

    /** `topologicalSortVisit`: visits the owners of `objName` depth first, then appends
        `objName`.  `S` is a ghost set closed under owners that bounds what gets appended; when a
        ranking climbs every owner edge, everything visited but not yet appended ranks below
        `objName`, and owners end up before the objects they own. */
    method Visit(objName: ObjectKey, out: seq<ObjectKey>, visited: set<ObjectKey>,
                 ghost S: set<ObjectKey>, ghost rank: ObjectKey -> int)
        returns (out': seq<ObjectKey>, visited': set<ObjectKey>)
      requires Valid()
      requires objName in S && objName !in visited
      requires S <= byName.Keys && visited <= byName.Keys
      requires forall y, o :: y in S && o in Owners(y) ==> o in S
      requires forall k :: k in out ==> k in visited
      requires Distinct(out)
      requires Ranked(rank) ==> OwnersFirst(out)
      requires Ranked(rank) ==> forall v :: v in visited && v !in out ==> rank(v) < rank(objName)
      ensures |out'| > |out| && out'[..|out|] == out && out'[|out'| - 1] == objName
      ensures visited' == visited + set k | k in out'[|out|..]
      ensures forall k :: k in out'[|out|..] ==> k !in visited && k in S
      ensures Distinct(out')
      ensures visited' <= byName.Keys
      ensures Ranked(rank) ==> OwnersFirst(out')
      ensures (out', visited') == DfsVisit(objName, out, visited)
      decreases byName.Keys - visited, 1
    {
      out', visited' := out, visited + {objName};
      var ownerNames := SortedOwners(objName);
      VisitStart(objName, out, visited, S, rank, ownerNames);
      for i := 0 to |ownerNames|
        invariant VisitLoop(objName, out, visited, S, rank, ownerNames, i, out', visited')
      {
        out', visited' := VisitNext(objName, out, visited, S, rank, ownerNames, i, out', visited');
      }
      VisitFinish(objName, out, visited, S, rank, ownerNames, out', visited');
      out' := out' + [objName];
    }

    /** What `Visit` may assume of its arguments. */
    ghost predicate VisitCall(objName: ObjectKey, out: seq<ObjectKey>, visited: set<ObjectKey>,
                              S: set<ObjectKey>, rank: ObjectKey -> int)
      reads this
    {
      && objName in S && objName !in visited
      && S <= byName.Keys && visited <= byName.Keys
      && (forall y, o :: y in S && o in Owners(y) ==> o in S)
      && (forall k :: k in out ==> k in visited)
      && Distinct(out)
      && (Ranked(rank) ==> OwnersFirst(out))
      && (Ranked(rank) ==> forall v :: v in visited && v !in out ==> rank(v) < rank(objName))
    }

    /** The loop invariant of `Visit`: `Visiting`, and what is left of the depth-first walk over
        the owners from position `i` on completes the walk from the start. */
    ghost predicate VisitLoop(objName: ObjectKey, out: seq<ObjectKey>, visited: set<ObjectKey>,
                              S: set<ObjectKey>, rank: ObjectKey -> int, ownerNames: seq<ObjectKey>, i: nat,
                              out': seq<ObjectKey>, visited': set<ObjectKey>)
      reads this
    {
      && Visiting(objName, out, visited, S, rank, ownerNames, i, out', visited')
      && DfsOwners(ownerNames, i, out', visited') == DfsOwners(ownerNames, 0, out, visited + {objName})
    }

    /** One round of the loop of `topologicalSortVisit`: visits `ownerNames[i]` unless it is
        visited already. */
    method VisitNext(objName: ObjectKey, out: seq<ObjectKey>, visited: set<ObjectKey>,
                     ghost S: set<ObjectKey>, ghost rank: ObjectKey -> int, ownerNames: seq<ObjectKey>, i: nat,
                     out1: seq<ObjectKey>, visited1: set<ObjectKey>)
        returns (out2: seq<ObjectKey>, visited2: set<ObjectKey>)
      requires Valid() && VisitCall(objName, out, visited, S, rank)
      requires ownerNames == SortedOwners(objName)
      requires i < |ownerNames| && VisitLoop(objName, out, visited, S, rank, ownerNames, i, out1, visited1)
      ensures VisitLoop(objName, out, visited, S, rank, ownerNames, i + 1, out2, visited2)
      decreases byName.Keys - visited, 0
    {
      var ownerName := ownerNames[i];
      if ownerName !in visited1 {
        VisitPre(objName, out, visited, S, rank, ownerNames, i, out1, visited1);
        out2, visited2 := Visit(ownerName, out1, visited1, S, rank);
        VisitStep(objName, out, visited, S, rank, ownerNames, i, out1, visited1, out2, visited2);
      } else {
        VisitSkip(objName, out, visited, S, rank, ownerNames, i, out1, visited1);
        out2, visited2 := out1, visited1;
      }
    }

    /** The loop invariant of `Visit` after the owners `ownerNames[..i]` of `objName`: the output
        grew from `out` by new, distinct keys of `S`, `visited'` is what was visited before plus
        `objName` plus what was appended, and those owners are all visited. */
    ghost predicate Visiting(objName: ObjectKey, out: seq<ObjectKey>, visited: set<ObjectKey>,
                             S: set<ObjectKey>, rank: ObjectKey -> int, ownerNames: seq<ObjectKey>, i: nat,
                             out': seq<ObjectKey>, visited': set<ObjectKey>)
      reads this
    {
      && i <= |ownerNames|
      && |out'| >= |out| && out'[..|out|] == out
      && visited' == visited + {objName} + (set k | k in out'[|out|..])
      && (forall k :: k in out'[|out|..] ==> k !in visited && k != objName && k in S)
      && Distinct(out')
      && visited' <= byName.Keys
      && (Ranked(rank) ==> OwnersFirst(out'))
      && (forall j :: 0 <= j < i ==> ownerNames[j] in visited')
    }

    lemma VisitStart(objName: ObjectKey, out: seq<ObjectKey>, visited: set<ObjectKey>,
                     S: set<ObjectKey>, rank: ObjectKey -> int, ownerNames: seq<ObjectKey>)
      requires objName in S && S <= byName.Keys && visited <= byName.Keys
      requires Distinct(out)
      requires Ranked(rank) ==> OwnersFirst(out)
      ensures Visiting(objName, out, visited, S, rank, ownerNames, 0, out, visited + {objName})
    {
      assert out[|out|..] == [];
      assert out[..|out|] == out;
    }

    lemma VisitSkip(objName: ObjectKey, out: seq<ObjectKey>, visited: set<ObjectKey>,
                    S: set<ObjectKey>, rank: ObjectKey -> int, ownerNames: seq<ObjectKey>, i: nat,
                    out': seq<ObjectKey>, visited': set<ObjectKey>)
      requires VisitLoop(objName, out, visited, S, rank, ownerNames, i, out', visited')
      requires i < |ownerNames| && ownerNames[i] in visited'
      ensures VisitLoop(objName, out, visited, S, rank, ownerNames, i + 1, out', visited')
    {
      assert DfsOwners(ownerNames, i, out', visited') == DfsOwners(ownerNames, i + 1, out', visited');
    }

    /** A nested visit of an owner is one step of the depth-first walk over the owners. */
    lemma DfsOwnersStep(ownerNames: seq<ObjectKey>, i: nat, out1: seq<ObjectKey>, visited1: set<ObjectKey>,
                        out2: seq<ObjectKey>, visited2: set<ObjectKey>)
      requires i < |ownerNames| && ownerNames[i] in byName && ownerNames[i] !in visited1
      requires (out2, visited2) == DfsVisit(ownerNames[i], out1, visited1)
      ensures DfsOwners(ownerNames, i, out1, visited1) == DfsOwners(ownerNames, i + 1, out2, visited2)
    {
    }

    /** Before an unvisited owner of `objName` is visited, the recursive call's preconditions
        hold, and the measure `byName.Keys - visited` has shrunk. */
    lemma VisitPre(objName: ObjectKey, out: seq<ObjectKey>, visited: set<ObjectKey>,
                   S: set<ObjectKey>, rank: ObjectKey -> int, ownerNames: seq<ObjectKey>, i: nat,
                   out': seq<ObjectKey>, visited': set<ObjectKey>)
      requires Visiting(objName, out, visited, S, rank, ownerNames, i, out', visited')
      requires objName in S && S <= byName.Keys
      requires forall y, o :: y in S && o in Owners(y) ==> o in S
      requires forall k :: k in ownerNames <==> k in Owners(objName)
      requires forall k :: k in out ==> k in visited
      requires Ranked(rank) ==> forall v :: v in visited && v !in out ==> rank(v) < rank(objName)
      requires i < |ownerNames| && ownerNames[i] !in visited'
      ensures ownerNames[i] in S
      ensures forall k :: k in out' ==> k in visited'
      ensures visited + {objName} <= visited'
      ensures Ranked(rank) ==> forall v :: v in visited' && v !in out' ==> rank(v) < rank(ownerNames[i])
    {
      var ownerName := ownerNames[i];
      assert ownerName in Owners(objName);
      assert out' == out + out'[|out|..];
      StackBelow(objName, ownerName, out, visited, out', visited', rank);
    }

    /** After the nested visit of `ownerNames[i]`, the invariant holds one owner further. */
    lemma VisitStep(objName: ObjectKey, out: seq<ObjectKey>, visited: set<ObjectKey>,
                    S: set<ObjectKey>, rank: ObjectKey -> int, ownerNames: seq<ObjectKey>, i: nat,
                    out1: seq<ObjectKey>, visited1: set<ObjectKey>, out2: seq<ObjectKey>, visited2: set<ObjectKey>)
      requires VisitLoop(objName, out, visited, S, rank, ownerNames, i, out1, visited1)
      requires i < |ownerNames|
      requires |out2| > |out1| && out2[..|out1|] == out1 && out2[|out2| - 1] == ownerNames[i]
      requires visited2 == visited1 + set k | k in out2[|out1|..]
      requires forall k :: k in out2[|out1|..] ==> k !in visited1 && k in S
      requires Distinct(out2)
      requires visited2 <= byName.Keys
      requires Ranked(rank) ==> OwnersFirst(out2)
      requires ownerNames[i] in byName && ownerNames[i] !in visited1
      requires (out2, visited2) == DfsVisit(ownerNames[i], out1, visited1)
      ensures VisitLoop(objName, out, visited, S, rank, ownerNames, i + 1, out2, visited2)
    {
      VisitGrown(out, visited, objName, out1, visited1, out2, visited2, ownerNames[i]);
      SeenStill(ownerNames, i, visited1, visited2);
      DfsOwnersStep(ownerNames, i, out1, visited1, out2, visited2);
    }

    /** What is on the visiting stack when an owner of `objName` is visited ranks below that
        owner. */
    lemma StackBelow(objName: ObjectKey, ownerName: ObjectKey, out: seq<ObjectKey>, visited: set<ObjectKey>,
                     out1: seq<ObjectKey>, visited1: set<ObjectKey>, rank: ObjectKey -> int)
      requires ownerName in Owners(objName)
      requires |out1| >= |out| && out1[..|out|] == out
      requires visited1 == visited + {objName} + set k | k in out1[|out|..]
      requires Ranked(rank) ==> forall v :: v in visited && v !in out ==> rank(v) < rank(objName)
      ensures Ranked(rank) ==> forall v :: v in visited1 && v !in out1 ==> rank(v) < rank(ownerName)
    {
      if Ranked(rank) {
        assert rank(objName) < rank(ownerName);
        forall v | v in visited1 && v !in out1 ensures rank(v) < rank(ownerName) {
          assert out1 == out + out1[|out|..];
        }
      }
    }

    /** A nested visit keeps the bookkeeping of the enclosing one. */
    lemma VisitGrown(out: seq<ObjectKey>, visited: set<ObjectKey>, objName: ObjectKey,
                     out1: seq<ObjectKey>, visited1: set<ObjectKey>, out2: seq<ObjectKey>, visited2: set<ObjectKey>,
                     ownerName: ObjectKey)
      requires |out1| >= |out| && out1[..|out|] == out
      requires visited1 == visited + {objName} + set k | k in out1[|out|..]
      requires |out2| > |out1| && out2[..|out1|] == out1 && out2[|out2| - 1] == ownerName
      requires visited2 == visited1 + set k | k in out2[|out1|..]
      requires forall k :: k in out2[|out1|..] ==> k !in visited1
      ensures visited1 <= visited2 && ownerName in visited2
      ensures |out2| >= |out| && out2[..|out|] == out
      ensures visited2 == visited + {objName} + set k | k in out2[|out|..]
      ensures forall k :: k in out2[|out|..] ==> k in out1[|out|..] || k in out2[|out1|..]
      ensures forall k :: k in out2[|out|..] && k !in out1[|out|..] ==> k !in visited && k != objName
    {
      assert out2[|out|..] == out1[|out|..] + out2[|out1|..];
      assert ownerName == out2[|out1|..][|out2| - 1 - |out1|];
    }

    /** Owners already seen stay seen as the visited set grows. */
    lemma SeenStill(ownerNames: seq<ObjectKey>, i: nat, visited1: set<ObjectKey>, visited2: set<ObjectKey>)
      requires i < |ownerNames|
      requires forall j :: 0 <= j < i ==> ownerNames[j] in visited1
      requires visited1 <= visited2 && ownerNames[i] in visited2
      ensures forall j :: 0 <= j < i + 1 ==> ownerNames[j] in visited2
    {
    }

    /** Appending `objName` once all its owners are visited. */
    lemma VisitFinish(objName: ObjectKey, out: seq<ObjectKey>, visited: set<ObjectKey>,
                      S: set<ObjectKey>, rank: ObjectKey -> int, ownerNames: seq<ObjectKey>,
                      out1: seq<ObjectKey>, visited1: set<ObjectKey>)
      requires Visiting(objName, out, visited, S, rank, ownerNames, |ownerNames|, out1, visited1)
      requires objName in S
      requires forall k :: k in ownerNames <==> k in Owners(objName)
      requires forall k :: k in out ==> k in visited
      requires objName !in visited
      requires Ranked(rank) ==> forall v :: v in visited && v !in out ==> rank(v) < rank(objName)
      ensures |out1 + [objName]| > |out| && (out1 + [objName])[..|out|] == out
      ensures visited1 == visited + set k | k in (out1 + [objName])[|out|..]
      ensures forall k :: k in (out1 + [objName])[|out|..] ==> k !in visited && k in S
      ensures Distinct(out1 + [objName])
      ensures Ranked(rank) ==> OwnersFirst(out1 + [objName])
    {
      assert out1 == out + out1[|out|..];
      assert (out1 + [objName])[|out|..] == out1[|out|..] + [objName];
      assert (out1 + [objName])[..|out|] == out;
      ConcatDistinct(out1, [objName]);
      var out' := out1 + [objName];
      if Ranked(rank) {
        forall o | o in Owners(objName) ensures o in out1 {
          assert o in ownerNames;
          assert rank(objName) < rank(o);
        }
        forall n, o | 0 <= n < |out'| && o in Owners(out'[n]) ensures o in out'[..n] {
          if n < |out1| {
            assert out'[..n] == out1[..n];
          } else {
            assert out'[..n] == out1;
          }
        }
      }
    }

    /** `topologicalSort` of one component: every key once, owners first when ownership within
        it is acyclic. */
    method TopologicalSort(objNames: seq<ObjectKey>, ghost rank: ObjectKey -> int) returns (out: seq<ObjectKey>)
      requires Valid()
      requires forall k :: k in objNames ==> k in byName
      requires forall y, o :: y in objNames && o in Owners(y) ==> o in objNames
      ensures Distinct(out)
      ensures forall k :: k in out <==> k in objNames
      ensures Ranked(rank) ==> OwnersFirst(out)
      ensures out == DfsOrder(objNames)
    {
      out := [];
      var visited: set<ObjectKey> := {};
      for i := 0 to |objNames|
        invariant TopoSoFar(objNames, rank, i, out, visited)
      {
        out, visited := TopoNext(objNames, rank, i, out, visited);
      }
    }

    /** The loop invariant of `topologicalSort` after the first `i` keys: those keys are
        visited, the output lists exactly the visited keys once each, owners first when ownership
        is ranked, and what is left of the walk completes the walk from the start. */
    ghost predicate TopoSoFar(objNames: seq<ObjectKey>, rank: ObjectKey -> int, i: nat,
                              out: seq<ObjectKey>, visited: set<ObjectKey>)
      reads this
    {
      && i <= |objNames|
      && visited == (set k | k in out)
      && Distinct(out)
      && (forall k :: k in out ==> k in objNames)
      && (forall j :: 0 <= j < i ==> objNames[j] in visited)
      && (Ranked(rank) ==> OwnersFirst(out))
      && DfsAll(objNames, i, out, visited) == DfsAll(objNames, 0, [], {})
    }

    /** One round of the loop of `topologicalSort`: visits `objNames[i]` unless it is visited
        already. */
    method TopoNext(objNames: seq<ObjectKey>, ghost rank: ObjectKey -> int, i: nat,
                    out: seq<ObjectKey>, visited: set<ObjectKey>)
        returns (out': seq<ObjectKey>, visited': set<ObjectKey>)
      requires Valid()
      requires forall k :: k in objNames ==> k in byName
      requires forall y, o :: y in objNames && o in Owners(y) ==> o in objNames
      requires i < |objNames| && TopoSoFar(objNames, rank, i, out, visited)
      ensures TopoSoFar(objNames, rank, i + 1, out', visited')
    {
      var objName := objNames[i];
      if objName in visited {
        return out, visited;
      }
      ghost var S := set k | k in objNames;
      out', visited' := Visit(objName, out, visited, S, rank);
      TopoStep(objNames, rank, i, out, visited, out', visited');
    }

    /** A visit from `objNames[i]` keeps the invariant of `topologicalSort`. */
    lemma TopoStep(objNames: seq<ObjectKey>, rank: ObjectKey -> int, i: nat, out: seq<ObjectKey>, visited: set<ObjectKey>,
                   out': seq<ObjectKey>, visited': set<ObjectKey>)
      requires i < |objNames| && TopoSoFar(objNames, rank, i, out, visited)
      requires objNames[i] in byName && objNames[i] !in visited
      requires |out'| > |out| && out'[..|out|] == out && out'[|out'| - 1] == objNames[i]
      requires visited' == visited + set k | k in out'[|out|..]
      requires forall k :: k in out'[|out|..] ==> k !in visited && k in objNames
      requires Distinct(out')
      requires Ranked(rank) ==> OwnersFirst(out')
      requires (out', visited') == DfsVisit(objNames[i], out, visited)
      ensures TopoSoFar(objNames, rank, i + 1, out', visited')
    {
      assert out' == out + out'[|out|..];
      assert objNames[i] in out'[|out|..];
    }

    /** The body of the loop of `sortObjects`: one component sorted by key, then
        topologically. */
    method SortComponent(cc: seq<ObjectKey>, ghost rank: ObjectKey -> int) returns (sorted: seq<ObjectKey>)
      requires Valid()
      requires forall k :: k in cc ==> k in byName
      requires forall y, z :: y in cc && Adjacent(y, z) ==> z in cc
      ensures Distinct(sorted)
      ensures forall k :: k in sorted <==> k in cc
      ensures Ranked(rank) ==> OwnersFirst(sorted)
      ensures sorted == ComponentOrder(cc)
    {
      var byKey := SortKeys(cc);
      forall y, o | y in byKey && o in Owners(y) ensures o in byKey {
        assert Adjacent(y, o);
      }
      sorted := TopologicalSort(byKey, rank);
    }

    /** `parts` are the connected components: each is exactly what the key at position
        `roots[i]` of `keys` reaches, that is its first occurrence in `keys`, and the roots
        increase. */
    ghost predicate Components(keys: seq<ObjectKey>, parts: seq<seq<ObjectKey>>, roots: seq<nat>)
      reads this`ownerRefs, this`owningRefs
    {
      && |roots| == |parts|
      && (forall i :: 0 <= i < |parts| ==> roots[i] < |keys| && keys[roots[i]] in parts[i])
      && (forall i, j :: 0 <= i < j < |parts| ==> roots[i] < roots[j])
      && (forall i, p :: 0 <= i < |parts| && 0 <= p < roots[i] ==> keys[p] !in parts[i])
      && (forall i, y, z :: 0 <= i < |parts| && y in parts[i] && Adjacent(y, z) ==> z in parts[i])
      && (forall i, k :: 0 <= i < |parts| ==> (k in parts[i] <==> Reachable(keys[roots[i]], k)))
    }

    /** The loop of `sortObjects` over the components: each one sorted by key and then
        topologically, one after another. */
    method SortComponents(ccs: seq<seq<ObjectKey>>, ghost rank: ObjectKey -> int)
        returns (newNames: seq<ObjectKey>, ghost parts: seq<seq<ObjectKey>>)
      requires Valid() && Covers(ccs)
      ensures |parts| == |ccs| && newNames == Flatten(parts)
      ensures forall j, k :: 0 <= j < |ccs| ==> (k in parts[j] <==> k in ccs[j])
      ensures forall j {:trigger ComponentOrder(ccs[j])} :: 0 <= j < |ccs| ==> parts[j] == ComponentOrder(ccs[j])
      ensures Distinct(newNames)
      ensures forall k :: k in newNames <==> k in byName
      ensures Ranked(rank) ==> OwnersFirst(newNames)
    {
      newNames, parts := [], [];
      assert ccs[..0] == [];
      for i := 0 to |ccs|
        invariant SortedSoFar(ccs, rank, i, newNames, parts)
      {
        newNames, parts := SortNext(ccs, rank, i, newNames, parts);
      }
      assert ccs[..|ccs|] == ccs;
    }

    /** The loop invariant of `sortObjects` after the first `i` components: `newNames` is their
        sorted parts, one after the other. */
    ghost predicate SortedSoFar(ccs: seq<seq<ObjectKey>>, rank: ObjectKey -> int, i: nat,
                                newNames: seq<ObjectKey>, parts: seq<seq<ObjectKey>>)
      reads this
    {
      && i <= |ccs|
      && |parts| == i && newNames == Flatten(parts)
      && (forall j, k :: 0 <= j < i ==> (k in parts[j] <==> k in ccs[j]))
      && InOrder(ccs, parts)
      && Distinct(newNames)
      && (forall k :: k in newNames <==> k in Flatten(ccs[..i]))
      && (Ranked(rank) ==> OwnersFirst(newNames))
    }

    /** One round of the loop of `sortObjects`: component `i` sorted and appended. */
    method SortNext(ccs: seq<seq<ObjectKey>>, ghost rank: ObjectKey -> int, i: nat,
                    newNames: seq<ObjectKey>, ghost parts: seq<seq<ObjectKey>>)
        returns (newNames': seq<ObjectKey>, ghost parts': seq<seq<ObjectKey>>)
      requires Valid() && i < |ccs| && Covers(ccs)
      requires SortedSoFar(ccs, rank, i, newNames, parts)
      ensures SortedSoFar(ccs, rank, i + 1, newNames', parts')
    {
      var sorted := SortComponent(ccs[i], rank);
      SortedStep(ccs, rank, i, newNames, parts, sorted);
      newNames', parts' := newNames + sorted, parts + [sorted];
    }

    /** A component sorted as `SortComponent` promises keeps the invariant of `sortObjects`. */
    lemma SortedStep(ccs: seq<seq<ObjectKey>>, rank: ObjectKey -> int, i: nat,
                     newNames: seq<ObjectKey>, parts: seq<seq<ObjectKey>>, sorted: seq<ObjectKey>)
      requires i < |ccs| && Distinct(Flatten(ccs))
      requires SortedSoFar(ccs, rank, i, newNames, parts)
      requires Distinct(sorted) && (forall k :: k in sorted <==> k in ccs[i])
      requires Ranked(rank) ==> OwnersFirst(sorted)
      requires sorted == ComponentOrder(ccs[i])
      ensures SortedSoFar(ccs, rank, i + 1, newNames + sorted, parts + [sorted])
    {
      SortedNamesStep(ccs, i, newNames, parts, sorted, rank);
      OrderStep(ccs, parts, sorted);
    }

    /** Each of `parts` lists its component `ccs[j]` in the order `ComponentOrder` gives. */
    ghost predicate InOrder(ccs: seq<seq<ObjectKey>>, parts: seq<seq<ObjectKey>>)
      reads this`byName, this`ownerRefs
    {
      |parts| <= |ccs| && forall j {:trigger ComponentOrder(ccs[j])} :: 0 <= j < |parts| ==> parts[j] == ComponentOrder(ccs[j])
    }

    lemma OrderStep(ccs: seq<seq<ObjectKey>>, parts: seq<seq<ObjectKey>>, sorted: seq<ObjectKey>)
      requires |parts| < |ccs| && InOrder(ccs, parts)
      requires sorted == ComponentOrder(ccs[|parts|])
      ensures InOrder(ccs, parts + [sorted])
    {
    }

    /** Reordering the keys within each component keeps the components. */
    lemma ComponentsReordered(ccs: seq<seq<ObjectKey>>, parts: seq<seq<ObjectKey>>, roots: seq<nat>)
      requires Partitioned(ccs, roots) && |parts| == |ccs|
      requires forall j, k :: 0 <= j < |ccs| ==> (k in parts[j] <==> k in ccs[j])
      ensures Components(names, parts, roots)
    {
      forall i | 0 <= i < |parts|
        ensures roots[i] < |names| && names[roots[i]] in parts[i]
      {
        assert ccs[i][0] in ccs[i];
      }
    }

    /** One component of `SortedNames`: appending its sorted keys keeps the loop's facts. */
    lemma SortedNamesStep(ccs: seq<seq<ObjectKey>>, i: nat, newNames: seq<ObjectKey>, parts: seq<seq<ObjectKey>>,
                          sorted: seq<ObjectKey>, rank: ObjectKey -> int)
      requires i < |ccs| && Distinct(Flatten(ccs))
      requires |parts| == i && newNames == Flatten(parts)
      requires forall j, k :: 0 <= j < i ==> (k in parts[j] <==> k in ccs[j])
      requires Distinct(newNames)
      requires forall k :: k in newNames <==> k in Flatten(ccs[..i])
      requires Ranked(rank) ==> OwnersFirst(newNames)
      requires Distinct(sorted) && (forall k :: k in sorted <==> k in ccs[i])
      requires Ranked(rank) ==> OwnersFirst(sorted)
      ensures newNames + sorted == Flatten(parts + [sorted])
      ensures forall j, k :: 0 <= j < i + 1 ==> (k in (parts + [sorted])[j] <==> k in ccs[j])
      ensures Distinct(newNames + sorted)
      ensures forall k :: k in newNames + sorted <==> k in Flatten(ccs[..i + 1])
      ensures Ranked(rank) ==> OwnersFirst(newNames + sorted)
    {
      forall k | k in sorted ensures k !in newNames {
        FlattenDisjoint(ccs, i, k);
      }
      ConcatDistinct(newNames, sorted);
      assert ccs[..i + 1][..i] == ccs[..i];
      if Ranked(rank) {
        OwnersFirstConcat(newNames, sorted, ownerRefs);
      }
      assert (parts + [sorted])[..i] == parts;
    }

    /** `sorted` is `keys` arranged as `sortObjects` arranges them: the connected components
        `parts`, in order of first appearance in `keys`, one after another, each listed in the
        order `ComponentOrder` gives its key set; every key once, owners first whenever
        ownership is acyclic. */
    ghost predicate Arranged(keys: seq<ObjectKey>, sorted: seq<ObjectKey>, parts: seq<seq<ObjectKey>>, roots: seq<nat>)
      reads this`byName, this`ownerRefs, this`owningRefs
    {
      && sorted == Flatten(parts) && Components(keys, parts, roots)
      && (forall j {:trigger ComponentOrder(parts[j])} :: 0 <= j < |parts| ==> parts[j] == ComponentOrder(parts[j]))
      && Distinct(sorted)
      && (forall k :: k in sorted <==> k in byName)
      && ((exists rank :: Ranked(rank)) ==> OwnersFirst(sorted))
    }

    /** The name list `sortObjects` computes. */
    method SortedNames() returns (newNames: seq<ObjectKey>, ghost parts: seq<seq<ObjectKey>>, ghost roots: seq<nat>)
      requires Valid()
      ensures Distinct(newNames) && forall k :: k in newNames <==> k in byName
      ensures Arranged(names, newNames, parts, roots)
    {
      ghost var rank: ObjectKey -> int := k => 0;
      if exists r :: Ranked(r) {
        rank :| Ranked(rank);
      }
      var ccs;
      ccs, roots := ConnectedComponents();
      newNames, parts := SortComponents(ccs, rank);
      ComponentsReordered(ccs, parts, roots);
      OrderOfMembers(ccs, parts);
    }

    /** A component listed in `ComponentOrder` of a list with the same keys is listed in its
        own `ComponentOrder`. */
    lemma OrderOfMembers(ccs: seq<seq<ObjectKey>>, parts: seq<seq<ObjectKey>>)
      requires |parts| == |ccs| && Distinct(Flatten(ccs)) && Distinct(Flatten(parts))
      requires forall j, k :: 0 <= j < |ccs| ==> (k in parts[j] <==> k in ccs[j])
      requires forall j {:trigger ComponentOrder(ccs[j])} :: 0 <= j < |ccs| ==> parts[j] == ComponentOrder(ccs[j])
      ensures forall j {:trigger ComponentOrder(parts[j])} :: 0 <= j < |parts| ==> parts[j] == ComponentOrder(parts[j])
    {
      forall j | 0 <= j < |parts| ensures parts[j] == ComponentOrder(parts[j]) {
        FlattenPartDistinct(ccs, j);
        FlattenPartDistinct(parts, j);
        ComponentOrderCanonical(ccs[j], parts[j]);
        assert parts[j] == ComponentOrder(ccs[j]) == ComponentOrder(parts[j]);
      }
    }

    /** `sortObjects`: replaces the name list by the sorted one. */
    method SortNames() returns (ghost parts: seq<seq<ObjectKey>>, ghost roots: seq<nat>)
      requires Valid()
      modifies this
      ensures Valid()
      ensures Arranged(old(names), names, parts, roots)
      ensures byName == old(byName) && ownerRefs == old(ownerRefs) && owningRefs == old(owningRefs)
    {
      var sorted;
      sorted, parts, roots := SortedNames();
      names := sorted;
      assert Wired();
    }

    /** `objects`: the indexed object of every name, in order. */
    method Objects() returns (objs: seq<Object>)
      requires Valid()
      ensures |objs| == |names|
      ensures forall i :: 0 <= i < |names| ==> objs[i] == byName[names[i]]
    {
      objs := [];
      for i := 0 to |names|
        invariant |objs| == i
        invariant forall j :: 0 <= j < i ==> objs[j] == byName[names[j]]
      {
        objs := objs + [byName[names[i]]];
      }
    }
  }

  /** A ranking of keys that every owner edge of `objs` climbs; it exists for every input whose
      ownership has no cycle. */
  ghost predicate Ranking(objs: seq<Object>, rank: ObjectKey -> int) {
    forall a, b :: (a, b) in Edges(objs) ==> rank(a) < rank(b)
  }

  /** An owner edge of `objs` between `a` and `b`, in either direction. */
  ghost predicate Joined(objs: seq<Object>, a: ObjectKey, b: ObjectKey) {
    (a, b) in Edges(objs) || (b, a) in Edges(objs)
  }

  /** `p` steps along owner edges of `objs`, in either direction. */
  ghost predicate Linked(objs: seq<Object>, p: seq<ObjectKey>) {
    |p| > 0 && forall i :: 0 <= i < |p| - 1 ==> Joined(objs, p[i], p[i + 1])
  }

  /** `a` and `b` are in the same connected component of the ownership graph of `objs`. */
  ghost predicate Connected(objs: seq<Object>, a: ObjectKey, b: ObjectKey) {
    exists p :: Linked(objs, p) && p[0] == a && p[|p| - 1] == b
  }

  /** `r` lists one object per distinct key of `objs`, the one `Index` keeps for it, and, when
      ownership is acyclic, owners before the objects they own. */
  ghost predicate Listed(objs: seq<Object>, r: seq<Object>) {
    && Distinct(Keys(r))
    && (forall k :: k in Keys(r) <==> k in Keys(objs))
    && (forall i :: 0 <= i < |r| ==> r[i] == Index(objs)[Key(r[i])])
    && ((exists rank :: Ranking(objs, rank)) ==>
          forall i, j :: 0 <= i < |r| && 0 <= j < |r| && (Key(r[i]), Key(r[j])) in Edges(objs) ==> j < i)
  }

  /** `components` are the connected components of the ownership graph of `objs`: component
      `i` holds exactly the keys connected to the key of `objs[roots[i]]`, its first object in
      `objs`, no owner edge leaves it, and the components come in order of first appearance. */
  ghost predicate ComponentsOf(objs: seq<Object>, components: seq<seq<ObjectKey>>, roots: seq<nat>) {
    && |roots| == |components|
    && (forall i :: 0 <= i < |components| ==> roots[i] < |objs| && Key(objs[roots[i]]) in components[i])
    && (forall i, j :: 0 <= i < j < |components| ==> roots[i] < roots[j])
    && (forall i, p :: 0 <= i < |components| && 0 <= p < roots[i] ==> Key(objs[p]) !in components[i])
    && (forall i, a, b :: 0 <= i < |components| && (a, b) in Edges(objs) ==> (a in components[i] <==> b in components[i]))
    && (forall i, k :: 0 <= i < |components| ==> (k in components[i] <==> Connected(objs, Key(objs[roots[i]]), k)))
  }

  /** `SortObjects`: one object per distinct key, the last of the input with that key; the
      connected components of the ownership graph one after another, in order of their first
      appearance in the input; and, when ownership is acyclic, owners before the objects they
      own. */
  method SortObjects(objs: seq<Object>) returns (r: seq<Object>, ghost components: seq<seq<ObjectKey>>, ghost roots: seq<nat>)
    ensures Listed(objs, r)
    ensures Keys(r) == Flatten(components)
    ensures ComponentsOf(objs, components, roots)
  {
    var graph := new ObjectGraph.Build(objs);
    components, roots := graph.SortNames();
    r := graph.Objects();
    SortedObjects(graph, objs, r, components, roots);
  }

  /** What the graph's sorted names and their objects say about the input objects. */
  lemma SortedObjects(graph: ObjectGraph, objs: seq<Object>, r: seq<Object>, components: seq<seq<ObjectKey>>, roots: seq<nat>)
    requires graph.Valid() && graph.byName == Index(objs)
    requires forall a, b :: b in graph.Owners(a) <==> (a, b) in Edges(objs)
    requires graph.Arranged(Keys(objs), graph.names, components, roots)
    requires |r| == |graph.names| && forall i :: 0 <= i < |graph.names| ==> r[i] == graph.byName[graph.names[i]]
    ensures Listed(objs, r)
    ensures Keys(r) == Flatten(components)
    ensures ComponentsOf(objs, components, roots)
  {
    SortedList(graph, objs, r);
    SortedComponents(graph, objs, components, roots);
  }

  /** The objects of the sorted names: every input key once, owners first when ownership is
      acyclic. */
  lemma SortedList(graph: ObjectGraph, objs: seq<Object>, r: seq<Object>)
    requires graph.Valid() && graph.byName == Index(objs)
    requires forall a, b :: b in graph.Owners(a) <==> (a, b) in Edges(objs)
    requires Distinct(graph.names)
    requires (exists rank :: graph.Ranked(rank)) ==> graph.OwnersFirst(graph.names)
    requires |r| == |graph.names| && forall i :: 0 <= i < |graph.names| ==> r[i] == graph.byName[graph.names[i]]
    ensures Keys(r) == graph.names
    ensures Listed(objs, r)
  {
    ObjectsInOrder(graph, objs, r);
    OwnersBeforeOwned(graph, objs, r);
  }

  /** The graph's components, restated over the input objects. */
  lemma SortedComponents(graph: ObjectGraph, objs: seq<Object>, components: seq<seq<ObjectKey>>, roots: seq<nat>)
    requires graph.Valid() && graph.Components(Keys(objs), components, roots)
    requires forall a, b :: b in graph.Owners(a) <==> (a, b) in Edges(objs)
    ensures ComponentsOf(objs, components, roots)
  {
    RootedAtObjects(objs, components, roots);
    EdgesInsideComponents(graph, objs, components, roots);
    ComponentsConnected(graph, objs, components, roots);
  }

  /** On the graph built from `objs`, reaching along owner and owned edges is being connected. */
  lemma ReachableConnected(graph: ObjectGraph, objs: seq<Object>, a: ObjectKey, b: ObjectKey)
    requires graph.Valid()
    requires forall x, y :: y in graph.Owners(x) <==> (x, y) in Edges(objs)
    ensures graph.Reachable(a, b) <==> Connected(objs, a, b)
  {
    forall x, y ensures graph.Adjacent(x, y) <==> Joined(objs, x, y) {
      assert y in graph.Owned(x) <==> x in graph.Owners(y);
    }
    if graph.Reachable(a, b) {
      var p :| graph.Trail(p) && p[0] == a && p[|p| - 1] == b;
      assert Linked(objs, p);
    }
    if Connected(objs, a, b) {
      var p :| Linked(objs, p) && p[0] == a && p[|p| - 1] == b;
      assert graph.Trail(p);
    }
  }

  /** The components the graph reports are the connected components of the input's ownership
      graph, each rooted at an input object. */
  lemma ComponentsConnected(graph: ObjectGraph, objs: seq<Object>, parts: seq<seq<ObjectKey>>, roots: seq<nat>)
    requires graph.Valid() && graph.Components(Keys(objs), parts, roots)
    requires forall a, b :: b in graph.Owners(a) <==> (a, b) in Edges(objs)
    ensures forall i, k :: 0 <= i < |parts| ==> (k in parts[i] <==> Connected(objs, Key(objs[roots[i]]), k))
  {
    forall i, k | 0 <= i < |parts| ensures k in parts[i] <==> Connected(objs, Key(objs[roots[i]]), k) {
      assert Keys(objs)[roots[i]] == Key(objs[roots[i]]);
      ReachableConnected(graph, objs, Keys(objs)[roots[i]], k);
    }
  }

  /** The objects of the sorted names, as `objects` looks them up, carry those names. */
  lemma ObjectsInOrder(graph: ObjectGraph, objs: seq<Object>, r: seq<Object>)
    requires graph.Valid() && graph.byName == Index(objs)
    requires |r| == |graph.names| && forall i :: 0 <= i < |graph.names| ==> r[i] == graph.byName[graph.names[i]]
    ensures Keys(r) == graph.names
    ensures forall i :: 0 <= i < |r| ==> r[i] == Index(objs)[Key(r[i])]
  {
    assert Keys(r) == graph.names;
  }

  /** Roots given as positions in the key list are positions in the object list. */
  lemma RootedAtObjects(objs: seq<Object>, parts: seq<seq<ObjectKey>>, roots: seq<nat>)
    requires |roots| == |parts|
    requires forall i :: 0 <= i < |parts| ==> roots[i] < |Keys(objs)| && Keys(objs)[roots[i]] in parts[i]
    requires forall i, p :: 0 <= i < |parts| && 0 <= p < roots[i] ==> Keys(objs)[p] !in parts[i]
    ensures forall i :: 0 <= i < |parts| ==> roots[i] < |objs| && Key(objs[roots[i]]) in parts[i]
    ensures forall i, p :: 0 <= i < |parts| && 0 <= p < roots[i] ==> Key(objs[p]) !in parts[i]
  {
  }

  lemma EdgesInsideComponents(graph: ObjectGraph, objs: seq<Object>, parts: seq<seq<ObjectKey>>, roots: seq<nat>)
    requires graph.Valid() && graph.Components(Keys(objs), parts, roots)
    requires forall a, b :: b in graph.Owners(a) <==> (a, b) in Edges(objs)
    ensures forall i, a, b :: 0 <= i < |parts| && (a, b) in Edges(objs) ==> (a in parts[i] <==> b in parts[i])
  {
    forall i, a, b | 0 <= i < |parts| && (a, b) in Edges(objs) ensures a in parts[i] <==> b in parts[i] {
      assert b in graph.Owners(a);
      graph.AdjacentSymmetric(a, b);
      ClosedBothWays(graph, Keys(objs), parts, roots, i, a, b);
    }
  }

  lemma OwnersBeforeOwned(graph: ObjectGraph, objs: seq<Object>, r: seq<Object>)
    requires Keys(r) == graph.names && Distinct(graph.names)
    requires forall a, b :: b in graph.Owners(a) <==> (a, b) in Edges(objs)
    requires (exists rank :: graph.Ranked(rank)) ==> graph.OwnersFirst(graph.names)
    ensures (exists rank :: Ranking(objs, rank)) ==>
      forall i, j :: 0 <= i < |r| && 0 <= j < |r| && (Key(r[i]), Key(r[j])) in Edges(objs) ==> j < i
  {
    if exists rank :: Ranking(objs, rank) {
      var rank :| Ranking(objs, rank);
      assert graph.Ranked(rank);
      forall i, j | 0 <= i < |r| && 0 <= j < |r| && (Key(r[i]), Key(r[j])) in Edges(objs) ensures j < i {
        assert graph.names[j] in graph.Owners(graph.names[i]);
        assert graph.names[j] in graph.names[..i];
      }
    }
  }

  lemma ClosedBothWays(graph: ObjectGraph, keys: seq<ObjectKey>, parts: seq<seq<ObjectKey>>, roots: seq<nat>,
                       i: nat, a: ObjectKey, b: ObjectKey)
    requires graph.Components(keys, parts, roots) && i < |parts|
    requires graph.Adjacent(a, b) && graph.Adjacent(b, a)
    ensures a in parts[i] <==> b in parts[i]
  {
  }

  /** Sorting by key inside a component depends only on which keys it holds. */
  lemma ComponentOrderCanonical(a: seq<ObjectKey>, b: seq<ObjectKey>)
    requires Distinct(a) && Distinct(b)
    requires forall k :: k in a <==> k in b
    ensures SortKeys(a) == SortKeys(b)
  {
    DistinctMultiset(a, b);
    SortKeysCanonical(a, b);
  }
}
