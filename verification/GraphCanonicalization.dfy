/** The algorithm itself: recursive, with one mutable set of the objects it is inside of. */
module GraphCanonicalization {
  import opened Common
  import opened Unicode
  import opened CanonicalJson
  import opened ObjectGraph

  /** Every refusal carries the one code; its message is not modelled. */
  datatype Failure = InvalidInput

  /** `parts.join(',')`. */
  function Join(parts: seq<Text>): Text {
    if parts == [] then [] else if |parts| == 1 then parts[0] else parts[0] + [COMMA] + Join(parts[1..])
  }

  lemma {:induction false} ItemsJoin(items: seq<Json>, parts: seq<Text>)
    requires |items| == |parts| && forall i :: 0 <= i < |items| ==> parts[i] == Canon(items[i])
    ensures Join(parts) == CanonItems(items)
    decreases |items|
  {
    if items != [] { ItemsJoin(items[1..], parts[1..]); }
  }

  lemma {:induction false} MembersJoin(ms: seq<Member>, ks: seq<Text>, parts: seq<Text>)
    requires |ks| == |parts| && forall i :: 0 <= i < |ks| ==> ks[i] in Keys(ms) && parts[i] == CanonMember(ms, ks[i])
    ensures Join(parts) == CanonMembers(ms, ks)
    decreases |ks|
  {
    if ks != [] { MembersJoin(ms, ks[1..], parts[1..]); }
  }

  lemma {:induction false} UnfoldingIsValid(h: Heap, v: Value, tree: Json)
    requires HeapOk(h) && ValueOk(h, v) && Unfolds(h, v, tree)
    ensures Valid(tree)
    decreases tree
  {
    if tree.Arr? {
      assert NodeOk(h, h[v.id]);
      forall i | 0 <= i < |tree.items| ensures Valid(tree.items[i]) {
        UnfoldingIsValid(h, Children(h[v.id])[i], tree.items[i]);
      }
    } else if tree.Obj? {
      assert NodeOk(h, h[v.id]);
      assert Keys(tree.members) == h[v.id].keys;
      forall i | 0 <= i < |tree.members| ensures Valid(tree.members[i].value) {
        UnfoldingIsValid(h, Children(h[v.id])[i], tree.members[i].value);
      }
    }
  }

  // ----- what the recursion promises at any depth -----

  ghost predicate Printed(h: Heap, v: Value, seen: set<nat>, text: Text) {
    exists tree :: Avoids(h, v, tree, seen) && text == Canon(tree)
  }

  ghost predicate Unprintable(h: Heap, v: Value, seen: set<nat>) {
    forall tree :: !Avoids(h, v, tree, seen)
  }

  ghost predicate Outcome(h: Heap, v: Value, seen: set<nat>, r: Result<Text, Failure>) {
    if r.Ok? then Printed(h, v, seen, r.value) else Unprintable(h, v, seen)
  }

  lemma LeafOutcome(h: Heap, v: Value, seen: set<nat>)
    requires !v.Ref?
    ensures match v
            case VNull => Printed(h, v, seen, NULL_TEXT)
            case VBool(b) => Printed(h, v, seen, if b then TRUE_TEXT else FALSE_TEXT)
            case VNumber(t) => Printed(h, v, seen, t)
            case VString(s) => Printed(h, v, seen, Quoted(s))
            case _ => Unprintable(h, v, seen)
  {
    match v
    case VNull => assert Avoids(h, v, Null, seen);
    case VBool(b) => assert Avoids(h, v, Bool(b), seen);
    case VNumber(t) => assert Avoids(h, v, Number(t), seen);
    case VString(s) => assert Avoids(h, v, Str(s), seen);
    case _ =>
  }

  lemma SeenIsUnprintable(h: Heap, id: nat, seen: set<nat>)
    requires id in seen
    ensures Unprintable(h, Ref(id), seen)
  {}

  lemma ChildUnprintable(h: Heap, id: nat, seen: set<nat>, c: Value)
    requires id in h && c in Children(h[id]) && Unprintable(h, c, seen + {id}) && NodeOk(h, h[id])
    ensures Unprintable(h, Ref(id), seen)
  {}

  lemma TreesInOrder(h: Heap, vs: seq<Value>, seen: set<nat>, parts: seq<Text>) returns (items: seq<Json>)
    requires |parts| == |vs| && forall i :: 0 <= i < |parts| ==> Printed(h, vs[i], seen, parts[i])
    ensures |items| == |vs|
            && forall i :: 0 <= i < |vs| ==> Avoids(h, vs[i], items[i], seen) && parts[i] == Canon(items[i])
  {
    hide Avoids, Canon;
    items := [];
    for i := 0 to |parts|
      invariant |items| == i
                && forall j :: 0 <= j < i ==> Avoids(h, vs[j], items[j], seen) && parts[j] == Canon(items[j])
    {
      assert Printed(h, vs[i], seen, parts[i]);
      var t :| Avoids(h, vs[i], t, seen) && parts[i] == Canon(t);
      items := items + [t];
    }
  }

  lemma ArrayAvoids(h: Heap, id: nat, seen: set<nat>, items: seq<Json>)
    requires id in h && id !in seen && h[id].ArrayNode? && |items| == |h[id].items|
    requires forall i :: 0 <= i < |items| ==> Avoids(h, h[id].items[i], items[i], seen + {id})
    ensures Avoids(h, Ref(id), Arr(items), seen)
  {}

  lemma ArrayPrinted(h: Heap, id: nat, seen: set<nat>, parts: seq<Text>)
    requires id in h && id !in seen && h[id].ArrayNode? && |parts| == |h[id].items|
    requires forall i :: 0 <= i < |parts| ==> Printed(h, h[id].items[i], seen + {id}, parts[i])
    ensures Printed(h, Ref(id), seen, [LBRACKET] + Join(parts) + [RBRACKET])
  {
    hide Printed, Canon, Join, Avoids, CanonItems;
    var items := TreesInOrder(h, h[id].items, seen + {id}, parts);
    ArrayAvoids(h, id, seen, items);
    ItemsJoin(items, parts);
    ItemsPrinted(h, id, seen, items, parts);
  }

  lemma ItemsPrinted(h: Heap, id: nat, seen: set<nat>, items: seq<Json>, parts: seq<Text>)
    requires Avoids(h, Ref(id), Arr(items), seen) && CanonItems(items) == Join(parts)
    ensures Printed(h, Ref(id), seen, [LBRACKET] + Join(parts) + [RBRACKET])
  {}

  /** `record[key]`. */
  function Lookup(n: Node, k: Text): Value
    requires n.ObjectNode? && |n.keys| == |n.values| && k in n.keys
  {
    IndexFinds(n.keys, k);
    n.values[IndexOf(n.keys, k)]
  }

  lemma IndexFinds(ks: seq<Text>, k: Text)
    requires k in ks
    ensures IndexOf(ks, k) < |ks|
  {}

  lemma LookupIsChild(n: Node, k: Text)
    requires n.ObjectNode? && |n.keys| == |n.values| && k in n.keys
    ensures Lookup(n, k) in Children(n)
  {}

  ghost predicate MemberPrinted(h: Heap, n: Node, k: Text, seen: set<nat>, part: Text)
    requires n.ObjectNode? && |n.keys| == |n.values| && k in n.keys
  {
    exists t :: Printed(h, Lookup(n, k), seen, t) && part == Quoted(k) + [COLON] + t
  }

  lemma TreesByKey(h: Heap, n: Node, seen: set<nat>, ks: seq<Text>, parts: seq<Text>) returns (trees: map<Text, Json>)
    requires n.ObjectNode? && |n.keys| == |n.values| && |ks| == |parts| && Distinct(ks)
             && forall k :: k in ks ==> k in n.keys
    requires forall i :: 0 <= i < |ks| ==> MemberPrinted(h, n, ks[i], seen, parts[i])
    ensures forall i :: 0 <= i < |ks| ==> ks[i] in trees && Avoids(h, Lookup(n, ks[i]), trees[ks[i]], seen)
                                          && parts[i] == Quoted(ks[i]) + [COLON] + Canon(trees[ks[i]])
  {
    hide Lookup, Quoted;
    trees := map[];
    for i := 0 to |ks|
      invariant forall j :: 0 <= j < i ==> ks[j] in trees && Avoids(h, Lookup(n, ks[j]), trees[ks[j]], seen)
                                           && parts[j] == Quoted(ks[j]) + [COLON] + Canon(trees[ks[j]])
    {
      assert MemberPrinted(h, n, ks[i], seen, parts[i]);
      var text :| Printed(h, Lookup(n, ks[i]), seen, text) && parts[i] == Quoted(ks[i]) + [COLON] + text;
      var t :| Avoids(h, Lookup(n, ks[i]), t, seen) && text == Canon(t);
      trees := trees[ks[i] := t];
    }
  }

  lemma LookupAt(n: Node, i: nat)
    requires n.ObjectNode? && |n.keys| == |n.values| && i < |n.keys| && Distinct(n.keys)
    ensures Lookup(n, n.keys[i]) == n.values[i]
  {}

  /** The members of an object, in insertion order, with their trees. */
  function Members(keys: seq<Text>, trees: map<Text, Json>): (ms: seq<Member>)
    requires forall k :: k in keys ==> k in trees
    ensures |ms| == |keys| && forall i :: 0 <= i < |ms| ==> ms[i] == Member(keys[i], trees[keys[i]])
    ensures Keys(ms) == keys
  {
    if keys == [] then [] else [Member(keys[0], trees[keys[0]])] + Members(keys[1..], trees)
  }

  lemma MembersPrint(keys: seq<Text>, trees: map<Text, Json>, ks: seq<Text>, parts: seq<Text>)
    requires |ks| == |parts| && (forall k :: k in keys ==> k in trees) && forall i :: 0 <= i < |ks| ==> ks[i] in keys
    requires forall i :: 0 <= i < |ks| ==> parts[i] == Quoted(ks[i]) + [COLON] + Canon(trees[ks[i]])
    ensures CanonMembers(Members(keys, trees), ks) == Join(parts)
  {
    hide Quoted, Canon;
    var ms := Members(keys, trees);
    forall i | 0 <= i < |ks| ensures ks[i] in Keys(ms) && parts[i] == CanonMember(ms, ks[i]) {
      assert ms[KeyIndex(ms, ks[i])].value == trees[ks[i]];
    }
    MembersJoin(ms, ks, parts);
  }

  lemma ObjectAvoids(h: Heap, id: nat, seen: set<nat>, trees: map<Text, Json>)
    requires id in h && id !in seen && h[id].ObjectNode? && NodeOk(h, h[id])
    requires forall k :: k in h[id].keys ==> k in trees && Avoids(h, Lookup(h[id], k), trees[k], seen + {id})
    ensures Avoids(h, Ref(id), Obj(Members(h[id].keys, trees)), seen)
  {
    hide Lookup;
    var n, ms := h[id], Members(h[id].keys, trees);
    forall i | 0 <= i < |ms| ensures Avoids(h, n.values[i], ms[i].value, seen + {id}) {
      assert n.keys[i] in n.keys;
      LookupAt(n, i);
    }
  }

  lemma MembersPrinted(h: Heap, id: nat, seen: set<nat>, ms: seq<Member>, parts: seq<Text>)
    requires Avoids(h, Ref(id), Obj(ms), seen) && CanonMembers(ms, Sort(Keys(ms))) == Join(parts)
    ensures Printed(h, Ref(id), seen, [LBRACE] + Join(parts) + [RBRACE])
  {}

  lemma ObjectPrinted(h: Heap, id: nat, seen: set<nat>, parts: seq<Text>)
    requires id in h && id !in seen && h[id].ObjectNode? && NodeOk(h, h[id]) && |parts| == |h[id].keys|
    requires forall i :: 0 <= i < |parts| ==> MemberPrinted(h, h[id], Sort(h[id].keys)[i], seen + {id}, parts[i])
    ensures Printed(h, Ref(id), seen, [LBRACE] + Join(parts) + [RBRACE])
  {
    hide Lookup, MemberPrinted, Quoted, Sort, Avoids, Members, Printed;
    var n := h[id];
    var ks := Sort(n.keys);
    SortSorts(n.keys);
    SortedAreDistinct(ks);
    var trees := TreesByKey(h, n, seen + {id}, ks, parts);
    forall k | k in n.keys ensures k in trees && Avoids(h, Lookup(n, k), trees[k], seen + {id}) {
      assert k in ks;
    }
    MembersPrint(n.keys, trees, ks, parts);
    ObjectAvoids(h, id, seen, trees);
    MembersPrinted(h, id, seen, Members(n.keys, trees), parts);
  }

  lemma SortedAreDistinct(ks: seq<Text>)
    requires Sorted(ks)
    ensures Distinct(ks)
  {
    forall i, j | 0 <= i < j < |ks| ensures ks[i] != ks[j] {
      BeforeIsATotalOrder(ks[i], ks[j]);
    }
  }

  class SeenSet {
    var ids: set<nat>

    constructor ()
      ensures ids == {}
    {
      ids := {};
    }
  }

  method Canonicalize(h: Heap, v: Value, seen: SeenSet) returns (r: Result<Text, Failure>)
    requires HeapOk(h) && ValueOk(h, v) && seen.ids <= h.Keys
    modifies seen
    ensures seen.ids == old(seen.ids)
    ensures Outcome(h, v, old(seen.ids), r)
    decreases |h.Keys - seen.ids|, 1
  {
    hide Printed, Unprintable;
    if !v.Ref? { LeafOutcome(h, v, seen.ids); }
    match v
    case VNull => return Ok(NULL_TEXT);
    case VBool(b) => return Ok(if b then TRUE_TEXT else FALSE_TEXT);
    case VNumber(t) => return Ok(t);
    case NonFinite => return Err(InvalidInput);
    case VString(s) => return Ok(Quoted(s));
    case Ref(id) =>
      if id in seen.ids {
        SeenIsUnprintable(h, id, seen.ids);
        return Err(InvalidInput);
      }
      ghost var outer := seen.ids;
      seen.ids := seen.ids + {id};
      assert h.Keys - outer == (h.Keys - seen.ids) + {id};
      if h[id].ArrayNode? {
        r := ArrayText(h, id, seen, outer);
      } else {
        r := ObjectText(h, id, seen, outer);
      }
      seen.ids := seen.ids - {id};
      assert seen.ids == outer;
    case _ => return Err(InvalidInput);
  }

  method ArrayText(h: Heap, id: nat, seen: SeenSet, ghost outer: set<nat>) returns (r: Result<Text, Failure>)
    requires HeapOk(h) && id in h && h[id].ArrayNode? && id !in outer && seen.ids == outer + {id} && outer <= h.Keys
    modifies seen
    ensures seen.ids == old(seen.ids)
    ensures Outcome(h, Ref(id), outer, r)
    decreases |h.Keys - seen.ids|, 2
  {
    hide Printed, Unprintable;
    var items := h[id].items;
    var parts: seq<Text> := [];
    assert NodeOk(h, h[id]);
    for i := 0 to |items|
      invariant seen.ids == old(seen.ids) && |parts| == i
      invariant forall j :: 0 <= j < i ==> Printed(h, items[j], outer + {id}, parts[j])
    {
      var item := items[i];
      assert item in Children(h[id]) && ValueOk(h, Children(h[id])[i]);
      if item in {Undefined, Callable, Symbol} {
        LeafOutcome(h, item, outer + {id});
        ChildUnprintable(h, id, outer, item);
        return Err(InvalidInput);
      }
      var text := Canonicalize(h, item, seen);
      if text.Err? {
        ChildUnprintable(h, id, outer, item);
        return text;
      }
      parts := parts + [text.value];
    }
    ArrayPrinted(h, id, outer, parts);
    return Ok([LBRACKET] + Join(parts) + [RBRACKET]);
  }

  method ObjectText(h: Heap, id: nat, seen: SeenSet, ghost outer: set<nat>) returns (r: Result<Text, Failure>)
    requires HeapOk(h) && id in h && h[id].ObjectNode? && id !in outer && seen.ids == outer + {id} && outer <= h.Keys
    modifies seen
    ensures seen.ids == old(seen.ids)
    ensures Outcome(h, Ref(id), outer, r)
    decreases |h.Keys - seen.ids|, 2
  {
    hide Printed, Unprintable, Sort, Quoted, Lookup;
    var keys := Sort(h[id].keys);
    var parts: seq<Text> := [];
    assert NodeOk(h, h[id]);
    for i := 0 to |keys|
      invariant seen.ids == old(seen.ids) && |parts| == i
      invariant forall j :: 0 <= j < i ==> MemberPrinted(h, h[id], keys[j], outer + {id}, parts[j])
    {
      assert keys[i] in keys;
      var v := Lookup(h[id], keys[i]);
      LookupIsChild(h[id], keys[i]);
      assert ValueOk(h, v);
      if v in {Undefined, Callable, Symbol} {
        LeafOutcome(h, v, outer + {id});
        ChildUnprintable(h, id, outer, v);
        return Err(InvalidInput);
      }
      var text := Canonicalize(h, v, seen);
      if text.Err? {
        ChildUnprintable(h, id, outer, v);
        return text;
      }
      parts := parts + [Quoted(keys[i]) + [COLON] + text.value];
    }
    ObjectPrinted(h, id, outer, parts);
    return Ok([LBRACE] + Join(parts) + [RBRACE]);
  }

  /** The text of an object: its members behind their quoted keys, and the keys in code-unit order. */
  ghost predicate PrintsInOrder(text: Text, keys: seq<Text>) {
    exists ks: seq<Text>, parts: seq<Text> ::
      && |ks| == |parts| == |keys| && (forall k :: k in ks <==> k in keys) && InCodeUnitOrder(ks)
      && (forall i :: 0 <= i < |ks| ==> Quoted(ks[i]) + [COLON] <= parts[i])
      && text == [LBRACE] + Join(parts) + [RBRACE]
  }

  lemma ObjectsPrintInOrder(h: Heap, v: Value, tree: Json)
    requires Unfolds(h, v, tree) && Valid(tree) && v.Ref? && h[v.id].ObjectNode?
    ensures PrintsInOrder(Canon(tree), h[v.id].keys)
  {
    hide Canon, PrintsInOrder;
    assert Keys(tree.members) == h[v.id].keys;
    MembersPrintInOrder(tree.members);
  }

  lemma MembersPrintInOrder(ms: seq<Member>)
    requires Distinct(Keys(ms))
    ensures PrintsInOrder(Canon(Obj(ms)), Keys(ms))
  {
    hide Quoted, InCodeUnitOrder, Sort, CanonMembers, Join;
    var ks := Sort(Keys(ms));
    SortSorts(Keys(ms));
    var parts := MemberTexts(ms, ks);
    MembersJoin(ms, ks, parts);
  }

  function MemberTexts(ms: seq<Member>, ks: seq<Text>): (parts: seq<Text>)
    requires forall k :: k in ks ==> k in Keys(ms)
    ensures |parts| == |ks|
    ensures forall i :: 0 <= i < |ks| ==>
              ks[i] in Keys(ms) && parts[i] == CanonMember(ms, ks[i]) && Quoted(ks[i]) + [COLON] <= parts[i]
  {
    if ks == [] then [] else [CanonMember(ms, ks[0])] + MemberTexts(ms, ks[1..])
  }

  /**
   * On any finite object graph: fails exactly when a cycle or a forbidden value can be reached (sharing is
   * fine), and otherwise returns the canonical text of the one tree the graph unfolds to.
   */
  method CanonicalizeJson(h: Heap, v: Value) returns (r: Result<Text, Failure>)
    requires HeapOk(h) && ValueOk(h, v)
    ensures r.Ok? <==> !ReachesForbidden(h, v) && !ReachesCycle(h, v)
    ensures r.Ok? ==> exists tree :: Unfolds(h, v, tree) && Valid(tree) && r.value == Canon(tree)
    ensures r.Ok? && v.Ref? && h[v.id].ObjectNode? ==> PrintsInOrder(r.value, h[v.id].keys)
  {
    hide ReachesForbidden, ReachesCycle;
    var seen := new SeenSet();
    r := Canonicalize(h, v, seen);
    TreeExactlyWhenClean(h, v);
    if r.Ok? {
      ghost var tree :| Avoids(h, v, tree, {}) && r.value == Canon(tree);
      UnfoldsExactlyWhenAvoids(h, v, tree);
      UnfoldingIsValid(h, v, tree);
      if v.Ref? && h[v.id].ObjectNode? { ObjectsPrintInOrder(h, v, tree); }
    } else if HasTree(h, v) {
      ghost var tree :| Unfolds(h, v, tree);
      UnfoldsExactlyWhenAvoids(h, v, tree);
    }
  }
}
