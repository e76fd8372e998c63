/** The ownership relation kept by the Operation Runtime, seen as a sequence of (id, parent) pairs in
    array order. Parent id 0 marks a root. */
module Forest {

  type Id = n: nat | n < 0x1_0000_0000

  datatype Node = Node(id: Id, parent: Id)

  /** Index of the first node with this id, or -1. */
  function Find(f: seq<Node>, id: Id): (r: int)
    ensures -1 <= r < |f|
    ensures r >= 0 ==> f[r].id == id
    ensures forall j :: 0 <= j < (if r < 0 then |f| else r) ==> f[j].id != id
  {
    if f == [] then -1
    else
      var r := Find(f[..|f| - 1], id);
      if r >= 0 then r else if f[|f| - 1].id == id then |f| - 1 else -1
  }

  /** Ids are distinct and non-zero, and every owner sits before the operations it owns. */
  ghost predicate IsForest(f: seq<Node>) {
    && (forall i, j :: 0 <= i < j < |f| ==> f[i].id != f[j].id)
    && (forall i :: 0 <= i < |f| ==> f[i].id != 0)
    && (forall i :: 0 <= i < |f| ==> OwnerBefore(f, i))
  }

  predicate OwnerBefore(f: seq<Node>, i: nat)
    requires i < |f|
  {
    f[i].parent == 0 || 0 <= Find(f, f[i].parent) < i
  }

  /** Node `i` is a proper descendant of the operation `a`. */
  ghost predicate Descends(f: seq<Node>, i: nat, a: Id)
    requires i < |f|
    decreases i
  {
    f[i].parent != 0 &&
    (f[i].parent == a || (var p := Find(f, f[i].parent); 0 <= p < i && Descends(f, p, a)))
  }

  ghost predicate HasDescendant(f: seq<Node>, a: Id) {
    exists i :: 0 <= i < |f| && Descends(f, i, a)
  }

  ghost predicate HasChild(f: seq<Node>, a: Id) {
    exists i :: 0 <= i < |f| && f[i].parent == a
  }

  function Ids(f: seq<Node>): set<Id> {
    set i | 0 <= i < |f| :: f[i].id
  }

  ghost function Ancestors(f: seq<Node>, i: nat): set<Id>
    requires i < |f|
    decreases i
  {
    if f[i].parent == 0 then {}
    else
      var p := Find(f, f[i].parent);
      {f[i].parent} + if 0 <= p < i then Ancestors(f, p) else {}
  }

  function RemoveAt<T>(s: seq<T>, k: nat): (r: seq<T>)
    requires k < |s|
    ensures |r| == |s| - 1
    ensures forall i :: 0 <= i < k ==> r[i] == s[i]
    ensures forall i :: k <= i < |s| - 1 ==> r[i] == s[i + 1]
  {
    s[..k] + s[k + 1..]
  }

  lemma FindUnique(f: seq<Node>, i: nat)
    requires IsForest(f) && i < |f|
    ensures Find(f, f[i].id) == i
  {
    var r := Find(f, f[i].id);
    assert r >= 0;
  }

  /** Owning nothing directly and owning nothing at all are the same thing. */
  lemma {:induction false} ChildIffDescendant(f: seq<Node>, a: Id)
    requires IsForest(f) && a != 0
    ensures HasDescendant(f, a) <==> HasChild(f, a)
  {
    if i :| 0 <= i < |f| && f[i].parent == a {
      assert Descends(f, i, a);
    }
    if i :| 0 <= i < |f| && Descends(f, i, a) {
      ChainReachesChild(f, i, a);
    }
  }

  lemma {:induction false} ChainReachesChild(f: seq<Node>, i: nat, a: Id)
    requires IsForest(f) && i < |f| && Descends(f, i, a)
    ensures HasChild(f, a)
    decreases i
  {
    assert OwnerBefore(f, i);
    if f[i].parent != a {
      ChainReachesChild(f, Find(f, f[i].parent), a);
    }
  }

  /** Every ancestor is live and sits strictly before its descendant. */
  lemma {:induction false} AncestorBefore(f: seq<Node>, i: nat, a: Id)
    requires IsForest(f) && i < |f| && Descends(f, i, a)
    ensures a != 0 && 0 <= Find(f, a) < i
    decreases i
  {
    assert OwnerBefore(f, i);
    if f[i].parent != a {
      AncestorBefore(f, Find(f, f[i].parent), a);
    }
  }

  /** The newest live operation owns nothing. */
  lemma LastIsLeaf(f: seq<Node>)
    requires IsForest(f) && f != []
    ensures !HasChild(f, f[|f| - 1].id)
  {
    if i :| 0 <= i < |f| && f[i].parent == f[|f| - 1].id {
      assert OwnerBefore(f, i);
      FindUnique(f, |f| - 1);
    }
  }

  lemma {:induction false} DescendsTransitive(f: seq<Node>, i: nat, j: nat, a: Id)
    requires IsForest(f) && i < |f| && j < |f|
    requires Descends(f, i, f[j].id) && Descends(f, j, a)
    ensures Descends(f, i, a)
    decreases i
  {
    assert OwnerBefore(f, i);
    FindUnique(f, j);
    if f[i].parent != f[j].id {
      DescendsTransitive(f, Find(f, f[i].parent), j, a);
    }
  }

  /** The ancestor set is exactly what `Descends` says, and it is no larger than the index. */
  lemma {:induction false} AncestorsExact(f: seq<Node>, i: nat)
    requires IsForest(f) && i < |f|
    ensures forall a: Id :: a in Ancestors(f, i) <==> Descends(f, i, a)
    ensures |Ancestors(f, i)| <= i
    ensures OwnerBefore(f, i)
    ensures f[i].parent != 0 ==> |Ancestors(f, i)| == 1 + |Ancestors(f, Find(f, f[i].parent))|
    decreases i
  {
    assert OwnerBefore(f, i);
    if f[i].parent != 0 {
      var p := Find(f, f[i].parent);
      AncestorsExact(f, p);
      if f[i].parent in Ancestors(f, p) {
        AncestorBefore(f, p, f[i].parent);
      }
    }
  }

  lemma FindAppend(f: seq<Node>, n: Node, id: Id)
    ensures Find(f + [n], id) == if Find(f, id) >= 0 then Find(f, id) else if n.id == id then |f| else -1
  {
    assert (f + [n])[..|f|] == f;
  }

  /** A fresh operation keeps the forest and changes no existing ancestry. */
  lemma AppendKeepsForest(f: seq<Node>, n: Node)
    requires IsForest(f)
    requires n.id != 0 && Find(f, n.id) < 0
    requires n.parent == 0 || Find(f, n.parent) >= 0
    ensures IsForest(f + [n])
    ensures forall i, a: Id :: 0 <= i < |f| ==> (Descends(f + [n], i, a) <==> Descends(f, i, a))
    ensures forall a: Id :: HasChild(f, a) ==> HasChild(f + [n], a)
  {
    var g := f + [n];
    forall i | 0 <= i < |g| ensures OwnerBefore(g, i) {
      assert i < |f| ==> OwnerBefore(f, i);
      FindAppend(f, n, g[i].parent);
    }
    forall i, a: Id | 0 <= i < |f| ensures Descends(g, i, a) <==> Descends(f, i, a) {
      AppendDescends(f, n, i, a);
    }
    forall a: Id | HasChild(f, a) ensures HasChild(g, a) {
      var i :| 0 <= i < |f| && f[i].parent == a;
      assert g[i].parent == a;
    }
  }

  lemma {:induction false} AppendDescends(f: seq<Node>, n: Node, i: nat, a: Id)
    requires IsForest(f) && i < |f|
    ensures Descends(f + [n], i, a) <==> Descends(f, i, a)
    decreases i
  {
    assert OwnerBefore(f, i);
    if f[i].parent != 0 {
      FindAppend(f, n, f[i].parent);
      AppendDescends(f, n, Find(f, f[i].parent), a);
    }
  }

  function Shift(k: nat, i: nat): nat {
    if i < k then i else i + 1
  }

  lemma FindAfterRemove(f: seq<Node>, k: nat, id: Id)
    requires IsForest(f) && k < |f| && id != f[k].id
    ensures var r := Find(f, id); var q := Find(RemoveAt(f, k), id);
            (r < 0 <==> q < 0) && (r >= 0 ==> q == (if r < k then r else r - 1))
  {
    var g := RemoveAt(f, k);
    var r := Find(f, id);
    var q := Find(g, id);
    if r >= 0 {
      assert r != k;
      var e := if r < k then r else r - 1;
      assert g[e].id == id;
    }
    if q >= 0 {
      assert f[Shift(k, q)].id == id;
    }
  }

  /** Removing an operation that owns nothing keeps the forest and every other ancestry. */
  lemma RemoveLeafKeepsForest(f: seq<Node>, k: nat)
    requires IsForest(f) && k < |f| && !HasChild(f, f[k].id)
    ensures IsForest(RemoveAt(f, k))
    ensures forall i, a: Id :: 0 <= i < |f| - 1 ==>
              (Descends(RemoveAt(f, k), i, a) <==> Descends(f, Shift(k, i), a))
    ensures Find(RemoveAt(f, k), f[k].id) < 0
  {
    var g := RemoveAt(f, k);
    RemoveLeafOwners(f, k);
    forall i, a: Id | 0 <= i < |g| ensures Descends(g, i, a) <==> Descends(f, Shift(k, i), a) {
      RemoveDescends(f, k, i, a);
    }
  }

  lemma RemoveLeafOwners(f: seq<Node>, k: nat)
    requires IsForest(f) && k < |f| && !HasChild(f, f[k].id)
    ensures IsForest(RemoveAt(f, k))
    ensures Find(RemoveAt(f, k), f[k].id) < 0
  {
    var g := RemoveAt(f, k);
    assert forall i :: 0 <= i < |g| ==> g[i] == f[Shift(k, i)];
    forall i | 0 <= i < |g| ensures OwnerBefore(g, i) {
      assert OwnerBefore(f, Shift(k, i));
      assert g[i].parent != f[k].id;
      FindAfterRemove(f, k, g[i].parent);
    }
  }

  lemma {:induction false} RemoveDescends(f: seq<Node>, k: nat, i: nat, a: Id)
    requires IsForest(f) && k < |f| && !HasChild(f, f[k].id) && i < |f| - 1
    ensures Descends(RemoveAt(f, k), i, a) <==> Descends(f, Shift(k, i), a)
    decreases i
  {
    var g := RemoveAt(f, k);
    var s := Shift(k, i);
    var n := f[s];
    assert g[i] == n && OwnerBefore(f, s);
    if n.parent != 0 && n.parent != a {
      assert n.parent != f[k].id;
      FindAfterRemove(f, k, n.parent);
      var r := Find(f, n.parent);
      var q := Find(g, n.parent);
      assert 0 <= r < s && r != k;
      assert Shift(k, q) == r && 0 <= q < i;
      RemoveDescends(f, k, q, a);
      assert Descends(f, s, a) == Descends(f, r, a);
      assert Descends(g, i, a) == Descends(g, q, a);
    }
  }

  lemma IdsAppend(f: seq<Node>, n: Node)
    ensures Ids(f + [n]) == Ids(f) + {n.id}
  {
    var g := f + [n];
    forall i | 0 <= i < |f| ensures f[i].id in Ids(g) {
      assert g[i] == f[i];
    }
    assert g[|f|].id in Ids(g);
  }

  lemma IdsRemove(f: seq<Node>, k: nat)
    requires IsForest(f) && k < |f|
    ensures Ids(RemoveAt(f, k)) == Ids(f) - {f[k].id}
  {
    var g := RemoveAt(f, k);
    forall i | 0 <= i < |f| && i != k ensures f[i].id in Ids(g) {
      assert g[if i < k then i else i - 1] == f[i];
    }
    forall i | 0 <= i < |g| ensures g[i].id in Ids(f) && g[i].id != f[k].id {
      assert g[i] == f[Shift(k, i)];
    }
  }

  /** A set of ids never has more members than the sequence, and membership is what `Find` decides. */
  lemma {:induction false} IdsBound(f: seq<Node>)
    ensures |Ids(f)| <= |f|
    ensures forall id: Id :: id in Ids(f) <==> Find(f, id) >= 0
  {
    forall id: Id ensures id in Ids(f) <==> Find(f, id) >= 0 {
      if Find(f, id) >= 0 { assert f[Find(f, id)].id == id; }
    }
    if f != [] {
      IdsBound(f[..|f| - 1]);
      IdsAppend(f[..|f| - 1], f[|f| - 1]);
      assert f == f[..|f| - 1] + [f[|f| - 1]];
    }
  }

  lemma {:induction false} CardSubset<T>(a: set<T>, b: set<T>)
    requires a <= b
    ensures |a| <= |b|
  {
    if x :| x in a {
      CardSubset(a - {x}, b - {x});
    }
  }
}
