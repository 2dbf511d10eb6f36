/** The cycle check for hierarchical relationships: a worklist search, and the acyclicity it protects. */
module Relationships {
  datatype RelationshipType =
    | OrganizerOf | ProducerOf | ParticipantOf | MemberOf | TeacherAt | DirectorOf | FounderOf | ProviderOf | VenueOf
    | SponsorOf | OfficialPhotographerOf | OfficialVideographerOf | TechnicalPartnerOf | FoodPartnerOf | MediaPartnerOf

  type Edge = (string, string)

  predicate Hierarchical(t: RelationshipType) {
    t in {MemberOf, TeacherAt, DirectorOf, FounderOf}
  }

  lemma FourKindsAreHierarchical(t: RelationshipType)
    ensures Hierarchical(t) <==> t.MemberOf? || t.TeacherAt? || t.DirectorOf? || t.FounderOf?
  {}

  /** A walk along the edges, given by the entities it visits. */
  predicate Walk(edges: seq<Edge>, p: seq<string>) {
    p != [] && forall i :: 0 <= i < |p| - 1 ==> (p[i], p[i + 1]) in edges
  }

  predicate WalkBetween(edges: seq<Edge>, p: seq<string>, a: string, b: string) {
    Walk(edges, p) && p[0] == a && p[|p| - 1] == b
  }

  ghost predicate Reachable(edges: seq<Edge>, a: string, b: string) {
    exists p :: WalkBetween(edges, p, a, b)
  }

  ghost predicate Acyclic(edges: seq<Edge>) {
    forall p, a :: WalkBetween(edges, p, a, a) ==> |p| == 1
  }

  // ----- reachability -----

  lemma ReachesItself(edges: seq<Edge>, a: string)
    ensures Reachable(edges, a, a)
  {
    assert WalkBetween(edges, [a], a, a);
  }

  lemma ReachesNext(edges: seq<Edge>, a: string, b: string, c: string)
    requires Reachable(edges, a, b) && (b, c) in edges
    ensures Reachable(edges, a, c)
  {
    var p :| WalkBetween(edges, p, a, b);
    assert WalkBetween(edges, p + [c], a, c);
  }

  lemma {:induction false} ReachesOn(edges: seq<Edge>, a: string, p: seq<string>, b: string, c: string)
    requires Reachable(edges, a, b) && WalkBetween(edges, p, b, c)
    ensures Reachable(edges, a, c)
    decreases |p|
  {
    if |p| > 1 {
      ReachesNext(edges, a, b, p[1]);
      assert WalkBetween(edges, p[1..], p[1], c);
      ReachesOn(edges, a, p[1..], p[1], c);
    }
  }

  lemma Transitive(edges: seq<Edge>, a: string, b: string, c: string)
    requires Reachable(edges, a, b) && Reachable(edges, b, c)
    ensures Reachable(edges, a, c)
  {
    var p :| WalkBetween(edges, p, b, c);
    ReachesOn(edges, a, p, b, c);
  }

  lemma OneStep(edges: seq<Edge>, a: string, b: string)
    requires (a, b) in edges
    ensures Reachable(edges, a, b)
  {
    assert WalkBetween(edges, [a, b], a, b);
  }

  /** A set closed under successors holds everything reachable from its members. */
  lemma {:induction false} ClosedHoldsWalk(edges: seq<Edge>, closed: set<string>, p: seq<string>, a: string, b: string)
    requires a in closed && (forall e :: e in edges && e.0 in closed ==> e.1 in closed) && WalkBetween(edges, p, a, b)
    ensures b in closed
    decreases |p|
  {
    if |p| > 1 {
      assert (p[0], p[1]) in edges;
      assert WalkBetween(edges, p[1..], p[1], b);
      ClosedHoldsWalk(edges, closed, p[1..], p[1], b);
    }
  }

  // ----- what one more edge does -----

  lemma {:induction false} WalkWithNewEdge(edges: seq<Edge>, from: string, to: string, p: seq<string>, a: string,
                                           b: string)
    requires WalkBetween(edges + [(from, to)], p, a, b)
    ensures Reachable(edges, a, b) || (Reachable(edges, a, from) && Reachable(edges, to, b))
    decreases |p|
  {
    if |p| == 1 {
      ReachesItself(edges, a);
    } else {
      var c := p[1];
      assert (a, c) in edges + [(from, to)];
      assert WalkBetween(edges + [(from, to)], p[1..], c, b);
      WalkWithNewEdge(edges, from, to, p[1..], c, b);
      if (a, c) in edges {
        OneStep(edges, a, c);
        if Reachable(edges, c, b) { Transitive(edges, a, c, b); } else { Transitive(edges, a, c, from); }
      } else {
        ReachesItself(edges, from);
      }
    }
  }

  lemma MoreEdgesReachMore(edges: seq<Edge>, e: Edge, a: string, b: string)
    requires Reachable(edges, a, b)
    ensures Reachable(edges + [e], a, b)
  {
    var p :| WalkBetween(edges, p, a, b);
    assert WalkBetween(edges + [e], p, a, b);
  }

  lemma CycleFromStep(edges: seq<Edge>, a: string, c: string)
    requires (a, c) in edges && Reachable(edges, c, a)
    ensures !Acyclic(edges)
  {
    var p :| WalkBetween(edges, p, c, a);
    assert WalkBetween(edges, [a] + p, a, a) && |[a] + p| != 1;
  }

  lemma NewCycle(edges: seq<Edge>, from: string, to: string, p: seq<string>, a: string)
    requires Acyclic(edges) && WalkBetween(edges + [(from, to)], p, a, a) && |p| != 1
    ensures Reachable(edges, to, from)
  {
    var c := p[1];
    assert (a, c) in edges + [(from, to)];
    assert WalkBetween(edges + [(from, to)], p[1..], c, a);
    WalkWithNewEdge(edges, from, to, p[1..], c, a);
    if (a, c) in edges {
      if Reachable(edges, c, a) { CycleFromStep(edges, a, c); }
      OneStep(edges, a, c);
      Transitive(edges, to, a, c);
      Transitive(edges, to, c, from);
    }
  }

  /** An edge keeps a graph acyclic exactly when its target does not lead back to its source. */
  lemma AcyclicExactlyWhen(edges: seq<Edge>, from: string, to: string)
    ensures Acyclic(edges + [(from, to)]) <==> Acyclic(edges) && !Reachable(edges, to, from)
  {
    if Acyclic(edges) && !Reachable(edges, to, from) {
      forall p, a | WalkBetween(edges + [(from, to)], p, a, a) ensures |p| == 1 {
        if |p| != 1 { NewCycle(edges, from, to, p, a); }
      }
    }
    if Acyclic(edges + [(from, to)]) {
      forall p, a | WalkBetween(edges, p, a, a) ensures |p| == 1 {
        assert WalkBetween(edges + [(from, to)], p, a, a);
      }
      if Reachable(edges, to, from) {
        MoreEdgesReachMore(edges, (from, to), to, from);
        CycleFromStep(edges + [(from, to)], from, to);
      }
    }
  }

  // ----- the search -----

  function Successors(edges: seq<Edge>, a: string): (r: seq<string>)
    ensures forall b :: b in r <==> (a, b) in edges
  {
    if edges == [] then []
    else
      var n := |edges| - 1;
      assert edges == edges[..n] + [edges[n]];
      Successors(edges[..n], a) + if edges[n].0 == a then [edges[n].1] else []
  }

  /** The entities the search can ever see. */
  function Seen(edges: seq<Edge>, start: string): (r: set<string>)
    ensures start in r && forall e :: e in edges ==> e.1 in r
  {
    {start} + set e | e in edges :: e.1
  }

  /** Targets by source, in the order of the edges. */
  method Adjacency(edges: seq<Edge>) returns (adjacency: map<string, seq<string>>)
    ensures forall a :: (if a in adjacency then adjacency[a] else []) == Successors(edges, a)
  {
    adjacency := map[];
    for i := 0 to |edges|
      invariant forall a :: (if a in adjacency then adjacency[a] else []) == Successors(edges[..i], a)
    {
      assert edges[..i + 1][..i] == edges[..i];
      var (source, target) := edges[i];
      var list := if source in adjacency then adjacency[source] else [];
      adjacency := adjacency[source := list + [target]];
    }
    assert edges[..|edges|] == edges;
  }

  /** All that was met can be reached, and nothing but what is on the stack is left to look behind. */
  ghost predicate Frontier(edges: seq<Edge>, start: string, stack: seq<string>, visited: set<string>) {
    && (start in stack || start in visited)
    && (forall x :: x in stack || x in visited ==> x in Seen(edges, start) && Reachable(edges, start, x))
    && (forall e :: e in edges && e.0 in visited ==> e.1 in visited || e.1 in stack)
  }

  lemma Visit(edges: seq<Edge>, start: string, below: seq<string>, visited: set<string>, current: string,
              next: seq<string>)
    requires Frontier(edges, start, below + [current], visited) && next == Successors(edges, current)
    ensures Frontier(edges, start, below + next, visited + {current})
  {
    hide Reachable;
    assert current in below + [current];
    assert forall x :: x in below + [current] <==> x in below || x == current;
    forall x | x in next ensures x in Seen(edges, start) && Reachable(edges, start, x) {
      ReachesNext(edges, start, current, x);
    }
  }

  lemma Skip(edges: seq<Edge>, start: string, below: seq<string>, visited: set<string>, current: string)
    requires Frontier(edges, start, below + [current], visited) && current in visited
    ensures Frontier(edges, start, below, visited)
  {}

  lemma Met(edges: seq<Edge>, start: string, stack: seq<string>, visited: set<string>)
    requires Frontier(edges, start, stack, visited)
    ensures visited <= Seen(edges, start)
            && forall x :: x in stack ==> x in Seen(edges, start) && Reachable(edges, start, x)
  {}

  method Push(stack: seq<string>, next: seq<string>) returns (r: seq<string>)
    ensures r == stack + next
  {
    r := stack;
    for i := 0 to |next|
      invariant r == stack + next[..i]
    {
      r := r + [next[i]];
    }
    assert next[..|next|] == next;
  }

  lemma Fewer(all: set<string>, visited: set<string>, x: string)
    requires x in all && x !in visited
    ensures |all - (visited + {x})| < |all - visited|
  {
    assert all - visited == (all - (visited + {x})) + {x};
  }

  method CreatesCycle(kind: RelationshipType, from: string, to: string, edges: seq<Edge>) returns (r: bool)
    ensures r <==> Hierarchical(kind) && Reachable(edges, to, from)
    ensures r <==> (kind.MemberOf? || kind.TeacherAt? || kind.DirectorOf? || kind.FounderOf?)
                   && Reachable(edges, to, from)
  {
    FourKindsAreHierarchical(kind);
    hide Reachable, Frontier, Seen, Hierarchical, Successors;
    if !Hierarchical(kind) { return false; }
    var adjacency := Adjacency(edges);
    var stack := [to];
    var visited: set<string> := {};
    ghost var all := Seen(edges, to);
    Start(edges, to);
    while stack != []
      invariant from !in visited && Frontier(edges, to, stack, visited)
      decreases |all - visited|, |stack|
    {
      var n := |stack| - 1;
      var current := stack[n];
      assert stack == stack[..n] + [current];
      Met(edges, to, stack, visited);
      ghost var below := stack[..n];
      stack := stack[..n];
      if current == from { return true; }
      if current in visited {
        Skip(edges, to, below, visited, current);
        continue;
      }
      Fewer(all, visited, current);
      var next := if current in adjacency then adjacency[current] else [];
      Visit(edges, to, below, visited, current, next);
      visited := visited + {current};
      stack := Push(stack, next);
    }
    if Reachable(edges, to, from) {
      Unreached(edges, visited, to, from);
    }
    return false;
  }

  lemma Start(edges: seq<Edge>, start: string)
    ensures Frontier(edges, start, [start], {})
  {
    ReachesItself(edges, start);
  }

  lemma {:induction false} Unreached(edges: seq<Edge>, visited: set<string>, start: string, b: string)
    requires Frontier(edges, start, [], visited) && Reachable(edges, start, b)
    ensures b in visited
  {
    var p :| WalkBetween(edges, p, start, b);
    ClosedHoldsWalk(edges, visited, p, start, b);
  }

  // ----- guarded additions -----

  /** The graph after requests for edges, each added when its target does not lead back to its source by then. */
  ghost function Guarded(edges: seq<Edge>, requests: seq<Edge>): seq<Edge> {
    if requests == [] then edges
    else
      var sofar, e := Guarded(edges, requests[..|requests| - 1]), requests[|requests| - 1];
      if Reachable(sofar, e.1, e.0) then sofar else sofar + [e]
  }

  lemma {:induction false} GuardedGrows(edges: seq<Edge>, requests: seq<Edge>, i: nat)
    requires i <= |requests|
    ensures Guarded(edges, requests[..i]) <= Guarded(edges, requests)
    decreases |requests|
  {
    if i == |requests| {
      assert requests[..i] == requests;
    } else {
      GuardedGrows(edges, requests[..|requests| - 1], i);
      assert requests[..|requests| - 1][..i] == requests[..i];
    }
  }

  /** A request was refused exactly when its edge would have closed a cycle in the graph of that moment. */
  lemma RefusedExactlyWhen(edges: seq<Edge>, requests: seq<Edge>, i: nat)
    requires Acyclic(edges) && i < |requests|
    ensures var before, after := Guarded(edges, requests[..i]), Guarded(edges, requests[..i + 1]);
            after == if Acyclic(before + [requests[i]]) then before + [requests[i]] else before
  {
    var (source, target) := requests[i];
    assert requests[..i + 1][..i] == requests[..i];
    GuardedStaysAcyclic(edges, requests[..i]);
    AcyclicExactlyWhen(Guarded(edges, requests[..i]), source, target);
  }

  /** Any sequence of guarded additions keeps the graph acyclic, keeps its edges, and adds only what was asked for. */
  lemma {:induction false} GuardedStaysAcyclic(edges: seq<Edge>, requests: seq<Edge>)
    requires Acyclic(edges)
    ensures var r := Guarded(edges, requests);
            Acyclic(r) && edges <= r && forall e :: e in r ==> e in edges || e in requests
    decreases |requests|
  {
    hide Acyclic, Reachable;
    if requests != [] {
      var rest, e := requests[..|requests| - 1], requests[|requests| - 1];
      GuardedStaysAcyclic(edges, rest);
      AcyclicExactlyWhen(Guarded(edges, rest), e.0, e.1);
      assert requests == rest + [e];
    }
  }

  lemma HarmlessIsAdded(edges: seq<Edge>, requests: seq<Edge>, i: nat)
    requires Acyclic(edges) && i < |requests| && Acyclic(Guarded(edges, requests[..i]) + [requests[i]])
    ensures requests[i] in Guarded(edges, requests)
  {
    hide Acyclic, Guarded;
    RefusedExactlyWhen(edges, requests, i);
    GuardedGrows(edges, requests, i + 1);
    assert Guarded(edges, requests)[|Guarded(edges, requests[..i])|] == requests[i];
  }

  method AddGuarded(kind: RelationshipType, edges: seq<Edge>, requests: seq<Edge>) returns (r: seq<Edge>)
    requires Hierarchical(kind) && Acyclic(edges)
    ensures r == Guarded(edges, requests)
    ensures Acyclic(r) && edges <= r && forall e :: e in r ==> e in edges || e in requests
    ensures forall i :: 0 <= i < |requests| && requests[i] !in r ==>
            !Acyclic(Guarded(edges, requests[..i]) + [requests[i]])
  {
    hide Acyclic, Reachable;
    r := edges;
    for i := 0 to |requests|
      invariant r == Guarded(edges, requests[..i])
    {
      assert requests[..i + 1][..i] == requests[..i];
      var (source, target) := requests[i];
      var cycle := CreatesCycle(kind, source, target, r);
      if !cycle {
        r := r + [(source, target)];
      }
    }
    assert requests[..|requests|] == requests;
    GuardedStaysAcyclic(edges, requests);
    forall i | 0 <= i < |requests|
      && requests[i] !in r ensures !Acyclic(Guarded(edges, requests[..i]) + [requests[i]]) {
      if Acyclic(Guarded(edges, requests[..i]) + [requests[i]]) { HarmlessIsAdded(edges, requests, i); }
    }
  }
}
