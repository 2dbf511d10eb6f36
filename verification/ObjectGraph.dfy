/**
 * canonicalizeJson on an object graph: recursion with a shared `seen` set over objects that may be
 * shared or cyclic. It ends on every finite graph, leaves `seen` as it found it, and prints the tree
 * the graph unfolds to; it fails exactly when there is no such tree.
 */
module ObjectGraph {
  import opened Common
  import opened Unicode
  import opened CanonicalJson

  /** A JavaScript value; an object is known by its place in the heap. */
  datatype Value =
    | VNull | VBool(b: bool) | VNumber(digits: Text) | VString(text: Text)
    | NonFinite | Undefined | Callable | Symbol | BigInt
    | Ref(id: nat)

  datatype Node = ArrayNode(items: seq<Value>) | ObjectNode(keys: seq<Text>, values: seq<Value>)

  type Heap = map<nat, Node>

  function Children(n: Node): seq<Value> {
    if n.ArrayNode? then n.items else n.values
  }

  /** References resolve, an object's keys are distinct and each has its value, numbers print as numbers. */
  predicate ValueOk(h: Heap, v: Value) {
    (v.Ref? ==> v.id in h) && (v.VNumber? ==> IsNumberText(v.digits))
  }

  predicate NodeOk(h: Heap, n: Node) {
    && (n.ObjectNode? ==> Distinct(n.keys) && |n.keys| == |n.values|)
    && forall i :: 0 <= i < |Children(n)| ==> ValueOk(h, Children(n)[i])
  }

  predicate HeapOk(h: Heap) {
    forall id :: id in h ==> NodeOk(h, h[id])
  }

  /** The finite tree a value unfolds to. */
  predicate Unfolds(h: Heap, v: Value, tree: Json)
    decreases tree
  {
    match tree
    case Null => v == VNull
    case Bool(b) => v == VBool(b)
    case Number(t) => v == VNumber(t)
    case Str(s) => v == VString(s)
    case Arr(items) =>
      v.Ref? && v.id in h && h[v.id].ArrayNode? && |items| == |h[v.id].items|
      && forall i :: 0 <= i < |items| ==> Unfolds(h, h[v.id].items[i], items[i])
    case Obj(ms) =>
      v.Ref? && v.id in h && h[v.id].ObjectNode? && |ms| == |h[v.id].keys| == |h[v.id].values|
      && forall i :: 0 <= i < |ms| ==> ms[i].key == h[v.id].keys[i] && Unfolds(h, h[v.id].values[i], ms[i].value)
  }

  /** The same, and no path down the tree meets an object in `seen` or meets one twice. */
  predicate Avoids(h: Heap, v: Value, tree: Json, seen: set<nat>)
    decreases tree
  {
    match tree
    case Null => v == VNull
    case Bool(b) => v == VBool(b)
    case Number(t) => v == VNumber(t)
    case Str(s) => v == VString(s)
    case Arr(items) =>
      v.Ref? && v.id in h && v.id !in seen && h[v.id].ArrayNode? && |items| == |h[v.id].items|
      && forall i :: 0 <= i < |items| ==> Avoids(h, h[v.id].items[i], items[i], seen + {v.id})
    case Obj(ms) =>
      v.Ref? && v.id in h && v.id !in seen && h[v.id].ObjectNode? && |ms| == |h[v.id].keys| == |h[v.id].values|
      && forall i :: 0 <= i < |ms| ==>
         ms[i].key == h[v.id].keys[i] && Avoids(h, h[v.id].values[i], ms[i].value, seen + {v.id})
  }

  lemma {:induction false} AvoidsUnfolds(h: Heap, v: Value, tree: Json, seen: set<nat>)
    requires Avoids(h, v, tree, seen)
    ensures Unfolds(h, v, tree)
    decreases tree
  {
    if tree.Arr? {
      forall i | 0 <= i < |tree.items| ensures Unfolds(h, h[v.id].items[i], tree.items[i]) {
        AvoidsUnfolds(h, h[v.id].items[i], tree.items[i], seen + {v.id});
      }
    } else if tree.Obj? {
      forall i | 0 <= i < |tree.members| ensures Unfolds(h, h[v.id].values[i], tree.members[i].value) {
        AvoidsUnfolds(h, h[v.id].values[i], tree.members[i].value, seen + {v.id});
      }
    }
  }

  lemma {:induction false} UnfoldingIsUnique(h: Heap, v: Value, a: Json, b: Json)
    requires Unfolds(h, v, a) && Unfolds(h, v, b)
    ensures a == b
    decreases a
  {
    if a.Arr? {
      forall i | 0 <= i < |a.items| ensures a.items[i] == b.items[i] {
        UnfoldingIsUnique(h, h[v.id].items[i], a.items[i], b.items[i]);
      }
    } else if a.Obj? {
      forall i | 0 <= i < |a.members| ensures a.members[i] == b.members[i] {
        UnfoldingIsUnique(h, h[v.id].values[i], a.members[i].value, b.members[i].value);
      }
    }
  }

  function Max(a: nat, b: nat): nat { if a < b then b else a }

  function Height(t: Json): nat
    decreases t, 0
  {
    match t
    case Arr(items) => 1 + HeightOfItems(items)
    case Obj(ms) => 1 + HeightOfMembers(ms)
    case _ => 0
  }

  function HeightOfItems(items: seq<Json>): (n: nat)
    ensures forall i :: 0 <= i < |items| ==> Height(items[i]) <= n
    decreases items, |items|
  {
    if items == [] then 0 else Max(Height(items[0]), HeightOfItems(items[1..]))
  }

  function HeightOfMembers(ms: seq<Member>): (n: nat)
    ensures forall i :: 0 <= i < |ms| ==> Height(ms[i].value) <= n
    decreases ms, |ms|
  {
    if ms == [] then 0 else Max(Height(ms[0].value), HeightOfMembers(ms[1..]))
  }

  /** Every object in `seen` unfolds to a tree higher than `n`, if to any. */
  ghost predicate AllHigher(h: Heap, seen: set<nat>, n: nat) {
    forall id, t :: id in seen && Unfolds(h, Ref(id), t) ==> Height(t) > n
  }

  lemma NotSeen(h: Heap, v: Value, tree: Json, seen: set<nat>)
    requires v.Ref? && Unfolds(h, v, tree) && AllHigher(h, seen, Height(tree))
    ensures v.id !in seen
  {}

  lemma HigherBelow(h: Heap, v: Value, tree: Json, seen: set<nat>, n: nat)
    requires v.Ref? && Unfolds(h, v, tree) && AllHigher(h, seen, Height(tree)) && n < Height(tree)
    ensures AllHigher(h, seen + {v.id}, n)
  {
    forall id, t | id in seen + {v.id} && Unfolds(h, Ref(id), t) ensures Height(t) > n {
      if id == v.id { UnfoldingIsUnique(h, v, tree, t); }
    }
  }

  lemma {:induction false} UnfoldsAvoids(h: Heap, v: Value, tree: Json, seen: set<nat>)
    requires Unfolds(h, v, tree) && AllHigher(h, seen, Height(tree))
    ensures Avoids(h, v, tree, seen)
    decreases tree
  {
    hide AllHigher;
    if tree.Arr? {
      NotSeen(h, v, tree, seen);
      forall i | 0 <= i < |tree.items| ensures Avoids(h, h[v.id].items[i], tree.items[i], seen + {v.id}) {
        HigherBelow(h, v, tree, seen, Height(tree.items[i]));
        UnfoldsAvoids(h, h[v.id].items[i], tree.items[i], seen + {v.id});
      }
    } else if tree.Obj? {
      NotSeen(h, v, tree, seen);
      forall i | 0 <= i < |tree.members| ensures Avoids(h, h[v.id].values[i], tree.members[i].value, seen + {v.id}) {
        HigherBelow(h, v, tree, seen, Height(tree.members[i].value));
        UnfoldsAvoids(h, h[v.id].values[i], tree.members[i].value, seen + {v.id});
      }
    }
  }

  /** A tree never meets an object twice on the way down: unfolding is the same with and without looking. */
  lemma UnfoldsExactlyWhenAvoids(h: Heap, v: Value, tree: Json)
    ensures Unfolds(h, v, tree) <==> Avoids(h, v, tree, {})
  {
    if Unfolds(h, v, tree) {
      UnfoldsAvoids(h, v, tree, {});
    }
    if Avoids(h, v, tree, {}) {
      AvoidsUnfolds(h, v, tree, {});
    }
  }

  // ----- when there is a tree -----

  predicate Forbidden(v: Value) {
    v in {NonFinite, Undefined, Callable, Symbol, BigInt}
  }

  /** From `v`, going down through the objects `path` in turn, one gets to `w`. */
  ghost predicate Reaches(h: Heap, v: Value, path: seq<nat>, w: Value)
    decreases |path|
  {
    if path == [] then v == w
    else v == Ref(path[0]) && path[0] in h && exists c :: c in Children(h[path[0]]) && Reaches(h, c, path[1..], w)
  }

  ghost predicate ReachesForbidden(h: Heap, v: Value) {
    exists path, w :: Reaches(h, v, path, w) && Forbidden(w)
  }

  ghost predicate OnCycle(h: Heap, w: Value) {
    exists path :: path != [] && Reaches(h, w, path, w)
  }

  ghost predicate ReachesCycle(h: Heap, v: Value) {
    exists path, w :: Reaches(h, v, path, w) && OnCycle(h, w)
  }

  ghost predicate HasTree(h: Heap, v: Value) {
    exists tree :: Unfolds(h, v, tree)
  }

  lemma ChildTree(h: Heap, v: Value, tree: Json, c: Value) returns (sub: Json)
    requires v.Ref? && Unfolds(h, v, tree) && c in Children(h[v.id])
    ensures Unfolds(h, c, sub) && Height(sub) < Height(tree)
  {
    var i :| 0 <= i < |Children(h[v.id])| && Children(h[v.id])[i] == c;
    sub := if tree.Arr? then tree.items[i] else tree.members[i].value;
  }

  lemma {:induction false} SubtreeReached(h: Heap, v: Value, tree: Json, path: seq<nat>, w: Value) returns (sub: Json)
    requires Unfolds(h, v, tree) && Reaches(h, v, path, w)
    ensures Unfolds(h, w, sub) && if path == [] then sub == tree else Height(sub) < Height(tree)
    decreases |path|
  {
    if path == [] {
      sub := tree;
    } else {
      var c :| c in Children(h[path[0]]) && Reaches(h, c, path[1..], w);
      var next := ChildTree(h, v, tree, c);
      sub := SubtreeReached(h, c, next, path[1..], w);
    }
  }

  lemma TreeMeansNeither(h: Heap, v: Value, tree: Json)
    requires Unfolds(h, v, tree)
    ensures !ReachesForbidden(h, v) && !ReachesCycle(h, v)
  {
    if ReachesForbidden(h, v) {
      var path, w :| Reaches(h, v, path, w) && Forbidden(w);
      var sub := SubtreeReached(h, v, tree, path, w);
      assert false;
    }
    if ReachesCycle(h, v) {
      var path, w :| Reaches(h, v, path, w) && OnCycle(h, w);
      var sub := SubtreeReached(h, v, tree, path, w);
      var around :| around != [] && Reaches(h, w, around, w);
      var again := SubtreeReached(h, w, sub, around, w);
      UnfoldingIsUnique(h, w, sub, again);
      assert false;
    }
  }

  lemma {:induction false} ReachesFurther(h: Heap, v: Value, path: seq<nat>, id: nat, c: Value)
    requires Reaches(h, v, path, Ref(id)) && id in h && c in Children(h[id])
    ensures Reaches(h, v, path + [id], c)
    decreases |path|
  {
    if path == [] {
      assert Reaches(h, c, [], c);
      assert (path + [id])[1..] == [];
    } else {
      var d :| d in Children(h[path[0]]) && Reaches(h, d, path[1..], Ref(id));
      ReachesFurther(h, d, path[1..], id, c);
      assert (path + [id])[1..] == path[1..] + [id];
    }
  }

  lemma ForbiddenBelow(h: Heap, id: nat, c: Value)
    requires id in h && c in Children(h[id]) && ReachesForbidden(h, c)
    ensures ReachesForbidden(h, Ref(id))
  {
    var path, w :| Reaches(h, c, path, w) && Forbidden(w);
    assert ([id] + path)[1..] == path;
    assert Reaches(h, Ref(id), [id] + path, w);
  }

  lemma CycleBelow(h: Heap, id: nat, c: Value)
    requires id in h && c in Children(h[id]) && ReachesCycle(h, c)
    ensures ReachesCycle(h, Ref(id))
  {
    var path, w :| Reaches(h, c, path, w) && OnCycle(h, w);
    assert ([id] + path)[1..] == path;
    assert Reaches(h, Ref(id), [id] + path, w);
  }

  lemma ChildIsClean(h: Heap, id: nat, c: Value)
    requires id in h && c in Children(h[id])
    requires !ReachesForbidden(h, Ref(id)) && !ReachesCycle(h, Ref(id))
    ensures !ReachesForbidden(h, c) && !ReachesCycle(h, c)
  {
    if ReachesForbidden(h, c) { ForbiddenBelow(h, id, c); }
    if ReachesCycle(h, c) { CycleBelow(h, id, c); }
  }

  /** Each object in `above` leads down to `v`. */
  ghost predicate AllLeadTo(h: Heap, above: set<nat>, v: Value) {
    forall id :: id in above ==> exists path :: path != [] && Reaches(h, Ref(id), path, v)
  }

  lemma LeadsToChild(h: Heap, above: set<nat>, id: nat, c: Value)
    requires id in h && c in Children(h[id]) && AllLeadTo(h, above, Ref(id))
    ensures AllLeadTo(h, above + {id}, c)
  {
    forall a | a in above + {id} ensures exists path :: path != [] && Reaches(h, Ref(a), path, c) {
      if a in above {
        var path :| path != [] && Reaches(h, Ref(a), path, Ref(id));
        ReachesFurther(h, Ref(a), path, id, c);
        assert path + [id] != [];
      } else {
        ReachesFurther(h, Ref(id), [], id, c);
        assert [] + [id] != [];
      }
    }
  }

  lemma {:induction false} CleanHasTree(h: Heap, v: Value, above: set<nat>)
    requires HeapOk(h) && ValueOk(h, v) && above <= h.Keys && AllLeadTo(h, above, v)
    requires !ReachesForbidden(h, v) && !ReachesCycle(h, v)
    ensures HasTree(h, v)
    decreases |h.Keys - above|
  {
    hide AllLeadTo, ReachesForbidden, ReachesCycle;
    match v
    case VNull => assert Unfolds(h, v, Null);
    case VBool(b) => assert Unfolds(h, v, Bool(b));
    case VNumber(t) => assert Unfolds(h, v, Number(t));
    case VString(s) => assert Unfolds(h, v, Str(s));
    case Ref(id) =>
      NotAbove(h, id, above);
      assert |h.Keys - (above + {id})| < |h.Keys - above| by {
        assert h.Keys - above == (h.Keys - (above + {id})) + {id};
      }
      forall c | c in Children(h[id]) ensures HasTree(h, c) {
        ChildIsClean(h, id, c);
        LeadsToChild(h, above, id, c);
        CleanHasTree(h, c, above + {id});
      }
      Assemble(h, id);
    case _ => NotForbidden(h, v);
  }

  lemma NotForbidden(h: Heap, v: Value)
    requires !ReachesForbidden(h, v)
    ensures !Forbidden(v)
  {
    assert Reaches(h, v, [], v);
  }

  lemma NotAbove(h: Heap, id: nat, above: set<nat>)
    requires AllLeadTo(h, above, Ref(id)) && !ReachesCycle(h, Ref(id))
    ensures id !in above
  {}

  lemma {:induction false} TreesOf(h: Heap, vs: seq<Value>) returns (trees: seq<Json>)
    requires forall c :: c in vs ==> HasTree(h, c)
    ensures |trees| == |vs| && forall i :: 0 <= i < |vs| ==> Unfolds(h, vs[i], trees[i])
  {
    trees := [];
    for i := 0 to |vs|
      invariant |trees| == i && forall j :: 0 <= j < i ==> Unfolds(h, vs[j], trees[j])
    {
      assert vs[i] in vs;
      var t :| Unfolds(h, vs[i], t);
      trees := trees + [t];
    }
  }

  lemma Assemble(h: Heap, id: nat)
    requires HeapOk(h) && id in h && forall c :: c in Children(h[id]) ==> HasTree(h, c)
    ensures HasTree(h, Ref(id))
  {
    assert NodeOk(h, h[id]);
    var trees := TreesOf(h, Children(h[id]));
    if h[id].ArrayNode? {
      assert Unfolds(h, Ref(id), Arr(trees));
    } else {
      var ms := seq(|trees|, i requires 0 <= i < |trees| => Member(h[id].keys[i], trees[i]));
      assert Unfolds(h, Ref(id), Obj(ms));
    }
  }

  /** There is a tree exactly when neither a forbidden value nor a cycle can be reached. */
  lemma TreeExactlyWhenClean(h: Heap, v: Value)
    requires HeapOk(h) && ValueOk(h, v)
    ensures HasTree(h, v) <==> !ReachesForbidden(h, v) && !ReachesCycle(h, v)
  {
    if HasTree(h, v) {
      var tree :| Unfolds(h, v, tree);
      TreeMeansNeither(h, v, tree);
    }
    if !ReachesForbidden(h, v) && !ReachesCycle(h, v) {
      CleanHasTree(h, v, {});
    }
  }
}
