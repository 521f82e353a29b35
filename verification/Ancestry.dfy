/** Ancestors by paths, and what the bounded walk computes of them. */
module Ancestry {
  import opened Basics
  import opened Transactions
  import opened Graphs

  ghost predicate IsParent(tx: DagTransaction, q: TxHash) {
    q != NULL_PARENT && (q == tx.parent1 || q == tx.parent2)
  }

  /** Each element but the last is stored and the next one is a parent of it. */
  ghost predicate IsPath(vs: Vertices, p: seq<TxHash>) {
    p != [] && forall i :: 0 <= i < |p| - 1 ==> StepsAt(vs, p, i)
  }

  ghost predicate StepsAt(vs: Vertices, p: seq<TxHash>, i: nat)
    requires i < |p| - 1
  {
    p[i] in vs && IsParent(vs[p[i]], p[i + 1])
  }

  ghost predicate Reaches(vs: Vertices, u: TxHash, v: TxHash) {
    exists p :: IsPath(vs, p) && p[0] == u && p[|p| - 1] == v
  }

  /** `u` and everything reachable from it over parents. */
  ghost function Closure(vs: Vertices, u: TxHash): set<TxHash> {
    set v | v in vs && Reaches(vs, u, v)
  }

  /** Stored under their own non-null id; parents of user vertices are stored. */
  ghost predicate Closed(vs: Vertices) {
    && NULL_PARENT !in vs
    && forall h {:trigger vs[h]} :: h in vs ==>
         vs[h].id == h && (vs[h].IsGenesis() || (vs[h].parent1 in vs && vs[h].parent2 in vs))
  }

  /** `s` contains the parents of its members. */
  ghost predicate ParentClosed(vs: Vertices, s: set<TxHash>) {
    forall h, q :: h in s && h in vs && IsParent(vs[h], q) ==> q in s
  }

  lemma ReachesSelf(vs: Vertices, u: TxHash)
    ensures Reaches(vs, u, u)
  {
    assert IsPath(vs, [u]);
  }

  lemma ReachesVia(vs: Vertices, u: TxHash, q: TxHash, v: TxHash)
    requires u in vs && IsParent(vs[u], q) && Reaches(vs, q, v)
    ensures Reaches(vs, u, v)
  {
    var p :| IsPath(vs, p) && p[0] == q && p[|p| - 1] == v;
    forall i | 0 <= i < |p| ensures StepsAt(vs, [u] + p, i) {
      assert i > 0 ==> StepsAt(vs, p, i - 1);
    }
    assert IsPath(vs, [u] + p);
  }

  lemma ReachesThen(vs: Vertices, u: TxHash, v: TxHash, q: TxHash)
    requires Reaches(vs, u, v) && v in vs && IsParent(vs[v], q)
    ensures Reaches(vs, u, q)
  {
    var p :| IsPath(vs, p) && p[0] == u && p[|p| - 1] == v;
    assert IsPath(vs, p + [q]) by {
      forall i | 0 <= i < |p| ensures StepsAt(vs, p + [q], i) {
        assert i < |p| - 1 ==> StepsAt(vs, p, i);
      }
    }
  }

  lemma {:induction false} PathStays(vs: Vertices, s: set<TxHash>, p: seq<TxHash>, k: nat)
    requires ParentClosed(vs, s) && IsPath(vs, p) && p[0] in s && k < |p|
    ensures p[k] in s
  {
    if k > 0 {
      PathStays(vs, s, p, k - 1);
      assert StepsAt(vs, p, k - 1);
    }
  }

  /** The closure is the least parent-closed set around a vertex. */
  lemma ClosureLeast(vs: Vertices, u: TxHash, s: set<TxHash>)
    requires ParentClosed(vs, s) && u in s
    ensures Closure(vs, u) <= s
    ensures forall v :: Reaches(vs, u, v) ==> v in s
  {
    forall v | Reaches(vs, u, v) ensures v in s {
      var p :| IsPath(vs, p) && p[0] == u && p[|p| - 1] == v;
      PathStays(vs, s, p, |p| - 1);
    }
  }

  lemma ClosureStored(vs: Vertices, t: TxHash)
    requires Closed(vs)
    ensures Closure(vs, t) <= vs.Keys && NULL_PARENT !in Closure(vs, t)
  {}

  lemma ClosureIsClosed(vs: Vertices, u: TxHash)
    requires Closed(vs) && u in vs
    ensures ParentClosed(vs, Closure(vs, u)) && u in Closure(vs, u)
  {
    ReachesSelf(vs, u);
    forall h, q | h in Closure(vs, u) && h in vs && IsParent(vs[h], q) ensures q in Closure(vs, u) {
      ReachesThen(vs, u, h, q);
    }
  }

  lemma ReachesTransitive(vs: Vertices, u: TxHash, v: TxHash, w: TxHash)
    requires Closed(vs) && u in vs && v in Closure(vs, u) && w in Closure(vs, v)
    ensures w in Closure(vs, u)
  {
    ClosureIsClosed(vs, u);
    ClosureLeast(vs, v, Closure(vs, u));
  }

  /** Everything reachable from some element of a stack. */
  ghost function Reach(vs: Vertices, stack: seq<TxHash>): set<TxHash> {
    set v | v in vs && exists i :: 0 <= i < |stack| && Reaches(vs, stack[i], v)
  }

  lemma ReachIsClosed(vs: Vertices, stack: seq<TxHash>)
    requires Closed(vs) && ToSet(stack) <= vs.Keys
    ensures ParentClosed(vs, Reach(vs, stack)) && ToSet(stack) <= Reach(vs, stack)
  {
    forall h | h in stack ensures h in Reach(vs, stack) {
      var i :| 0 <= i < |stack| && stack[i] == h;
      ReachesSelf(vs, h);
      assert Reaches(vs, stack[i], h);
      assert h in ToSet(stack);
    }
    forall h, q | h in Reach(vs, stack) && IsParent(vs[h], q) ensures q in Reach(vs, stack) {
      var i :| 0 <= i < |stack| && Reaches(vs, stack[i], h);
      ReachesThen(vs, stack[i], h, q);
    }
  }

  lemma ReachLeast(vs: Vertices, stack: seq<TxHash>, s: set<TxHash>)
    requires ParentClosed(vs, s) && ToSet(stack) <= s
    ensures Reach(vs, stack) <= s
  {
    forall v | v in Reach(vs, stack) ensures v in s {
      var i :| 0 <= i < |stack| && Reaches(vs, stack[i], v);
      assert stack[i] in ToSet(stack);
      ClosureLeast(vs, stack[i], s);
    }
  }

  // -------------------------------------------------------------- the walk

  lemma ParentsListed(tx: DagTransaction)
    ensures forall q :: q in Parents(tx) <==> IsParent(tx, q)
  {}

  /** One step of the walk. */
  lemma WalkStep(vs: Vertices, stack: seq<TxHash>, done: set<TxHash>, room: nat)
    ensures stack == [] ==> Walk(vs, stack, done, room) == done
    ensures stack != [] ==>
      var h, rest := stack[|stack| - 1], stack[..|stack| - 1];
      Walk(vs, stack, done, room) ==
        if h in done then Walk(vs, rest, done, room)
        else if room == 0 then done
        else if h in vs then Walk(vs, rest + Parents(vs[h]), done + {h}, room - 1)
        else Walk(vs, rest, done + {h}, room - 1)
  {
    if stack != [] && stack[|stack| - 1] !in vs { assert stack[..|stack| - 1] + [] == stack[..|stack| - 1]; }
  }

  lemma ClosureStep(vs: Vertices, stack: seq<TxHash>, done: set<TxHash>, room: nat)
    ensures stack == [] ==> ClosureWalk(vs, stack, done, room) == done
    ensures stack != [] ==>
      var h, rest := stack[|stack| - 1], stack[..|stack| - 1];
      ClosureWalk(vs, stack, done, room) ==
        if h in done then ClosureWalk(vs, rest, done, room)
        else if room == 0 then done + {h}
        else ClosureWalk(vs, rest + BothParentsOf(vs, h), done + {h}, room - 1)
  {}

  /** Parents of visited vertices are visited or waiting on the stack. */
  ghost predicate Frontier(vs: Vertices, stack: seq<TxHash>, done: set<TxHash>) {
    forall h, q :: h in done && h in vs && IsParent(vs[h], q) ==> q in done || q in stack
  }

  ghost predicate Holds(stack: seq<TxHash>, r: set<TxHash>) {
    forall i :: 0 <= i < |stack| ==> stack[i] in r
  }

  /** Outcome of a walk inside `s`: it finished, or it ran out of room with something unvisited. */
  ghost predicate Walked(vs: Vertices, stack: seq<TxHash>, done: set<TxHash>, room: nat, s: set<TxHash>,
                         r: set<TxHash>) {
    && done <= r <= s
    && |r| <= |done| + room
    && ((ParentClosed(vs, r) && Holds(stack, r)) || (|r| == |done| + room && r != s))
  }

  /** The walk stays inside any parent-closed set that holds its stack. */
  lemma {:induction false} WalkLaw(vs: Vertices, stack: seq<TxHash>, done: set<TxHash>, room: nat, s: set<TxHash>)
    requires Closed(vs) && s <= vs.Keys && ParentClosed(vs, s) && Holds(stack, s) && done <= s
    requires Frontier(vs, stack, done)
    ensures Walked(vs, stack, done, room, s, Walk(vs, stack, done, room))
    decreases room, |stack|
  {
    if stack == [] {
      EmptyWalk(vs, done, room, s);
    } else {
      hide Closed, ParentClosed, Holds, Frontier, Walked, ParentsOf;
      var h, rest := stack[|stack| - 1], stack[..|stack| - 1];
      var r := Walk(vs, stack, done, room);
      assert stack == rest + [h];
      WalkPush(vs, rest, h, done, s);
      if h in done {
        WalkLaw(vs, rest, done, room, s);
        WalkSkip(vs, rest, h, done, room, s, r);
      } else if room > 0 {
        WalkLaw(vs, rest + ParentsOf(vs, h), done + {h}, room - 1, s);
        WalkPop(vs, rest, h, done, room, s, r);
      } else {
        WalkStopped(vs, stack, done, s, h);
      }
    }
  }

  lemma EmptyWalk(vs: Vertices, done: set<TxHash>, room: nat, s: set<TxHash>)
    requires done <= s && Frontier(vs, [], done)
    ensures Walked(vs, [], done, room, s, done)
  {}

  lemma WalkStopped(vs: Vertices, stack: seq<TxHash>, done: set<TxHash>, s: set<TxHash>, h: TxHash)
    requires h in s && h !in done && done <= s
    ensures Walked(vs, stack, done, 0, s, done)
  {}

  lemma WalkSkip(vs: Vertices, rest: seq<TxHash>, h: TxHash, done: set<TxHash>, room: nat, s: set<TxHash>,
                 r: set<TxHash>)
    requires h in done && Walked(vs, rest, done, room, s, r)
    ensures Walked(vs, rest + [h], done, room, s, r)
  {}

  lemma WalkPop(vs: Vertices, rest: seq<TxHash>, h: TxHash, done: set<TxHash>, room: nat, s: set<TxHash>,
                r: set<TxHash>)
    requires h !in done && room > 0 && Walked(vs, rest + ParentsOf(vs, h), done + {h}, room - 1, s, r)
    ensures Walked(vs, rest + [h], done, room, s, r)
  {
    var next := rest + ParentsOf(vs, h);
    if Holds(next, r) {
      forall i | 0 <= i < |rest| ensures rest[i] in r { assert next[i] in r; }
    }
  }

  lemma WalkPush(vs: Vertices, rest: seq<TxHash>, h: TxHash, done: set<TxHash>, s: set<TxHash>)
    requires Closed(vs) && s <= vs.Keys && ParentClosed(vs, s) && Holds(rest + [h], s)
    requires Frontier(vs, rest + [h], done)
    ensures h in s && Holds(rest, s) && Holds(rest + ParentsOf(vs, h), s)
    ensures Frontier(vs, rest + ParentsOf(vs, h), done + {h})
    ensures h in done ==> Frontier(vs, rest, done)
  {
    assert (rest + [h])[|rest|] in s;
    ParentsListed(vs[h]);
    forall i | 0 <= i < |rest| ensures rest[i] in s { assert (rest + [h])[i] in s; }
    forall i | 0 <= i < |ParentsOf(vs, h)| ensures ParentsOf(vs, h)[i] in s {
      assert ParentsOf(vs, h)[i] in Parents(vs[h]);
    }
    FrontierPush(vs, rest, h, done);
  }

  lemma FrontierPush(vs: Vertices, rest: seq<TxHash>, h: TxHash, done: set<TxHash>)
    requires h in vs && Frontier(vs, rest + [h], done)
    ensures Frontier(vs, rest + ParentsOf(vs, h), done + {h})
    ensures h in done ==> Frontier(vs, rest, done)
  {
    ParentsListed(vs[h]);
    forall d, q | d in done && d in vs && IsParent(vs[d], q) ensures q in done + {h} || q in rest {
      assert q in done || q in rest + [h];
    }
  }

  /** New vertices do not change a walk that starts inside the old ones. */
  lemma {:induction false} WalkStable(vs: Vertices, ws: Vertices, stack: seq<TxHash>, done: set<TxHash>, room: nat)
    requires Closed(vs) && vs.Keys <= ws.Keys && (forall h :: h in vs ==> ws[h] == vs[h])
    requires ToSet(stack) <= vs.Keys
    ensures Walk(ws, stack, done, room) == Walk(vs, stack, done, room)
    decreases room, |stack|
  {
    if stack != [] {
      var h, rest := stack[|stack| - 1], stack[..|stack| - 1];
      StackInside(vs, ws, stack);
      hide ToSet, Closed, ParentsOf, Parents;
      if h in done {
        WalkStable(vs, ws, rest, done, room);
      } else if room > 0 {
        WalkStable(vs, ws, rest + ParentsOf(vs, h), done + {h}, room - 1);
      }
    }
  }

  lemma StackInside(vs: Vertices, ws: Vertices, stack: seq<TxHash>)
    requires Closed(vs) && vs.Keys <= ws.Keys && (forall h :: h in vs ==> ws[h] == vs[h])
    requires stack != [] && ToSet(stack) <= vs.Keys
    ensures var h, rest := stack[|stack| - 1], stack[..|stack| - 1];
      ToSet(rest) <= vs.Keys && ToSet(rest + ParentsOf(vs, h)) <= vs.Keys && ParentsOf(ws, h) == ParentsOf(vs, h)
  {
    var h, rest := stack[|stack| - 1], stack[..|stack| - 1];
    assert h in ToSet(stack);
    assert forall x :: x in rest ==> x in ToSet(stack);
    ParentsListed(vs[h]);
  }

  /** Strict ancestors of a vertex whose parents are stored. */
  ghost function ProperAncestors(vs: Vertices, tx: DagTransaction): set<TxHash> {
    Reach(vs, Parents(tx))
  }

  ghost predicate ParentsStored(vs: Vertices, tx: DagTransaction) {
    forall q :: IsParent(tx, q) ==> q in vs
  }

  /** The bounded walk visits min(bound, all) strict ancestors: exactly them all if and
      only if there are at most `ANCESTOR_WALK_BOUND`. */
  lemma BumpedExact(vs: Vertices, tx: DagTransaction)
    requires Closed(vs) && ParentsStored(vs, tx)
    ensures var all := ProperAncestors(vs, tx);
      && Bumped(vs, tx) <= all
      && |Bumped(vs, tx)| == (if |all| <= ANCESTOR_WALK_BOUND then |all| else ANCESTOR_WALK_BOUND)
      && (Bumped(vs, tx) == all <==> |all| <= ANCESTOR_WALK_BOUND)
  {
    ParentsListed(tx);
    var all, stack := ProperAncestors(vs, tx), Parents(tx);
    ReachIsClosed(vs, stack);
    forall i | 0 <= i < |stack| ensures stack[i] in all { assert stack[i] in ToSet(stack); }
    WalkLaw(vs, stack, {}, ANCESTOR_WALK_BOUND, all);
    var r := Bumped(vs, tx);
    BoundedSubset(vs, stack, all, r);
  }

  lemma BoundedSubset(vs: Vertices, stack: seq<TxHash>, all: set<TxHash>, r: set<TxHash>)
    requires all == Reach(vs, stack) && Walked(vs, stack, {}, ANCESTOR_WALK_BOUND, all, r)
    ensures |r| == (if |all| <= ANCESTOR_WALK_BOUND then |all| else ANCESTOR_WALK_BOUND)
    ensures r == all <==> |all| <= ANCESTOR_WALK_BOUND
  {
    if ParentClosed(vs, r) && Holds(stack, r) {
      ReachLeast(vs, stack, r);
      assert r == all;
    } else {
      ProperSubsetSmaller(r, all);
    }
  }

  // ------------------------------------------------------- parent closures

  /** Outcome of a closure walk inside `s`: complete, or one vertex past its room. */
  ghost predicate Closing(vs: Vertices, stack: seq<TxHash>, done: set<TxHash>, room: nat, s: set<TxHash>,
                          r: set<TxHash>) {
    && done <= r <= s
    && ((ParentClosed(vs, r) && Holds(stack, r) && |r| <= |done| + room) || |r| == |done| + room + 1)
  }

  lemma {:induction false} ClosureWalkLaw(vs: Vertices, stack: seq<TxHash>, done: set<TxHash>, room: nat,
                                          s: set<TxHash>)
    requires Closed(vs) && s <= vs.Keys && ParentClosed(vs, s) && Holds(stack, s) && done <= s
    requires Frontier(vs, stack, done)
    ensures Closing(vs, stack, done, room, s, ClosureWalk(vs, stack, done, room))
    decreases room, |stack|
  {
    if stack == [] {
      ClosedWalk(vs, done, room, s);
    } else {
      hide Closed, ParentClosed, Holds, Frontier, Closing, ParentsOf, BothParentsOf, ClosureWalk;
      ClosureStep(vs, stack, done, room);
      var h, rest := stack[|stack| - 1], stack[..|stack| - 1];
      var r := ClosureWalk(vs, stack, done, room);
      assert stack == rest + [h];
      ClosurePush(vs, rest, h, done, s);
      if h in done {
        ClosureWalkLaw(vs, rest, done, room, s);
        ClosingSkip(vs, rest, h, done, room, s, r);
      } else if room == 0 {
        ClosingFull(vs, stack, done, s, h);
      } else {
        ClosureWalkLaw(vs, rest + BothParentsOf(vs, h), done + {h}, room - 1, s);
        ClosingPop(vs, rest, h, done, room, s, r);
      }
    }
  }

  lemma ClosurePush(vs: Vertices, rest: seq<TxHash>, h: TxHash, done: set<TxHash>, s: set<TxHash>)
    requires Closed(vs) && s <= vs.Keys && ParentClosed(vs, s) && Holds(rest + [h], s)
    requires Frontier(vs, rest + [h], done)
    ensures h in s && Holds(rest, s) && Holds(rest + BothParentsOf(vs, h), s)
    ensures Frontier(vs, rest + BothParentsOf(vs, h), done + {h})
    ensures h in done ==> Frontier(vs, rest, done)
  {
    hide Closed, ParentClosed, Holds, Frontier, ParentsOf, BothParentsOf;
    WalkPush(vs, rest, h, done, s);
    BothParentsPush(vs, rest, h, done + {h}, s);
  }

  lemma ClosedWalk(vs: Vertices, done: set<TxHash>, room: nat, s: set<TxHash>)
    requires done <= s && Frontier(vs, [], done)
    ensures Closing(vs, [], done, room, s, done)
  {}

  lemma ClosingFull(vs: Vertices, stack: seq<TxHash>, done: set<TxHash>, s: set<TxHash>, h: TxHash)
    requires h in s && h !in done && done <= s
    ensures Closing(vs, stack, done, 0, s, done + {h})
  {}

  lemma ClosingSkip(vs: Vertices, rest: seq<TxHash>, h: TxHash, done: set<TxHash>, room: nat, s: set<TxHash>,
                    r: set<TxHash>)
    requires h in done && Closing(vs, rest, done, room, s, r)
    ensures Closing(vs, rest + [h], done, room, s, r)
  {}

  lemma ClosingPop(vs: Vertices, rest: seq<TxHash>, h: TxHash, done: set<TxHash>, room: nat, s: set<TxHash>,
                   r: set<TxHash>)
    requires h !in done && room > 0 && Closing(vs, rest + BothParentsOf(vs, h), done + {h}, room - 1, s, r)
    ensures Closing(vs, rest + [h], done, room, s, r)
  {
    var next := rest + BothParentsOf(vs, h);
    if Holds(next, r) {
      forall i | 0 <= i < |rest| ensures rest[i] in r { assert next[i] in r; }
    }
  }

  /** Pushing both parents, equal or not, leaves the same frontier. */
  lemma BothParentsPush(vs: Vertices, rest: seq<TxHash>, h: TxHash, done: set<TxHash>, s: set<TxHash>)
    requires h in vs && Holds(rest + ParentsOf(vs, h), s) && Frontier(vs, rest + ParentsOf(vs, h), done)
    ensures Holds(rest + BothParentsOf(vs, h), s) && Frontier(vs, rest + BothParentsOf(vs, h), done)
  {
    var other, stack := rest + ParentsOf(vs, h), rest + BothParentsOf(vs, h);
    ParentsListed(vs[h]);
    assert forall x :: x in other ==> x in s;
    forall i | 0 <= i < |stack| ensures stack[i] in s { assert stack[i] in rest || IsParent(vs[h], stack[i]); }
    assert forall x :: x in other ==> x in stack;
  }

  /** `parent_closure` reports min(bound + 1, all) vertices of the closure: exactly the
      closure if and only if it has at most bound + 1 of them. */
  lemma ParentClosureExact(vs: Vertices, id: TxHash)
    requires Closed(vs) && id in vs
    ensures var seen, all := ParentClosureOf(vs, id), Closure(vs, id);
      && seen <= all
      && |seen| == (if |all| <= ANCESTOR_WALK_BOUND + 1 then |all| else ANCESTOR_WALK_BOUND + 1)
      && (seen == all <==> |all| <= ANCESTOR_WALK_BOUND + 1)
  {
    var seen, all := ParentClosureOf(vs, id), Closure(vs, id);
    ClosureIsClosed(vs, id);
    ClosureWalkLaw(vs, [id], {}, ANCESTOR_WALK_BOUND, all);
    ClosedOrFull(vs, id, seen);
  }

  lemma ClosedOrFull(vs: Vertices, id: TxHash, seen: set<TxHash>)
    requires Closing(vs, [id], {}, ANCESTOR_WALK_BOUND, Closure(vs, id), seen)
    ensures var all := Closure(vs, id);
      && |seen| == (if |all| <= ANCESTOR_WALK_BOUND + 1 then |all| else ANCESTOR_WALK_BOUND + 1)
      && (seen == all <==> |all| <= ANCESTOR_WALK_BOUND + 1)
  {
    var all := Closure(vs, id);
    hide Closure;
    if ParentClosed(vs, seen) && Holds([id], seen) {
      assert [id][0] in seen;
      ClosureLeast(vs, id, seen);
      assert seen == all;
    } else {
      SubsetSmaller(seen, all);
      if seen != all { ProperSubsetSmaller(seen, all); }
    }
  }

  lemma ProperSubsetSmaller<T>(a: set<T>, b: set<T>)
    requires a < b
    ensures |a| < |b|
  {
    var x :| x in b && x !in a;
    SubsetSmaller(a, b - {x});
  }

  lemma {:induction false} SubsetSmaller<T>(a: set<T>, b: set<T>)
    requires a <= b
    ensures |a| <= |b|
    decreases |a|
  {
    if a != {} {
      var x :| x in a;
      SubsetSmaller(a - {x}, b - {x});
    }
  }
}
