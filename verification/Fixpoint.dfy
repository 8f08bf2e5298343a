/** `with recursive r(id) as (seed union step)`: a recursive query over a set of edges, evaluated the way
    the database does it, with a result table and a working table of the rows found last. */
module Fixpoint {

  /** The rows one pass of the recursive term produces from the working table. */
  function Step<T(==)>(edges: set<(T, T)>, working: set<T>): set<T> {
    set e | e in edges && e.0 in working :: e.1
  }

  function Targets<T(==)>(edges: set<(T, T)>): set<T> {
    set e | e in edges :: e.1
  }

  /** Keep the new rows as the next working table until a pass finds none. */
  function Iterate<T(==)>(edges: set<(T, T)>, result: set<T>, working: set<T>): set<T>
    requires working <= result
    decreases |Targets(edges) - result|
  {
    var found := Step(edges, working) - result;
    if found == {} then
      result
    else
      assert found <= Targets(edges) - result;
      assert Targets(edges) - (result + found) == Targets(edges) - result - found;
      Iterate(edges, result + found, found)
  }

  function Closure<T(==)>(edges: set<(T, T)>, seeds: set<T>): set<T> {
    Iterate(edges, seeds, seeds)
  }

  /** The query answers the least set that holds the seeds and is closed under the edges. */
  ghost predicate IsLeastClosed<T(!new)>(edges: set<(T, T)>, seeds: set<T>, result: set<T>) {
    && seeds <= result
    && Step(edges, result) <= result
    && forall s: set<T> | seeds <= s && Step(edges, s) <= s :: result <= s
  }

  lemma {:induction false} IterateIsLeastClosed<T(!new)>(edges: set<(T, T)>, result: set<T>, working: set<T>)
    requires working <= result
    requires Step(edges, result - working) <= result
    ensures IsLeastClosed(edges, result, Iterate(edges, result, working))
    decreases |Targets(edges) - result|
  {
    var found := Step(edges, working) - result;
    if found == {} {
      forall y | y in Step(edges, result) ensures y in result {
        var e :| e in edges && e.0 in result && e.1 == y;
        assert e.0 in working ==> y in Step(edges, working);
        assert e.0 !in working ==> y in Step(edges, result - working);
      }
    } else {
      assert found <= Targets(edges) - result;
      assert Targets(edges) - (result + found) == Targets(edges) - result - found;
      assert Step(edges, (result + found) - found) <= result + found by {
        assert (result + found) - found == result;
        forall y | y in Step(edges, result) ensures y in result + found {
          var e :| e in edges && e.0 in result && e.1 == y;
          assert e.0 in working ==> y in Step(edges, working);
          assert e.0 !in working ==> y in Step(edges, result - working);
        }
      }
      IterateIsLeastClosed(edges, result + found, found);
      forall s: set<T> | result <= s && Step(edges, s) <= s
        ensures Iterate(edges, result, working) <= s
      {
        assert found <= s by {
          forall y | y in found ensures y in s {
            var e :| e in edges && e.0 in working && e.1 == y;
            assert y in Step(edges, s);
          }
        }
      }
    }
  }

  lemma ClosureIsLeastClosed<T(!new)>(edges: set<(T, T)>, seeds: set<T>)
    ensures IsLeastClosed(edges, seeds, Closure(edges, seeds))
  {
    IterateIsLeastClosed(edges, seeds, seeds);
  }

  /** Membership travels along an edge. */
  lemma ClosureFollows<T(!new)>(edges: set<(T, T)>, seeds: set<T>, x: T, y: T)
    requires x in Closure(edges, seeds) && (x, y) in edges
    ensures y in Closure(edges, seeds)
  {
    ClosureIsLeastClosed(edges, seeds);
    assert y in Step(edges, Closure(edges, seeds)) by {
      assert (x, y).0 in Closure(edges, seeds);
    }
  }

  lemma ClosureWithin<T(!new)>(edges: set<(T, T)>, seeds: set<T>, bound: set<T>)
    requires seeds <= bound
    requires forall e | e in edges && e.0 in bound :: e.1 in bound
    ensures Closure(edges, seeds) <= bound
  {
    ClosureIsLeastClosed(edges, seeds);
    assert Step(edges, bound) <= bound;
  }

  lemma ClosureMonotone<T(!new)>(edges: set<(T, T)>, seeds: set<T>, edges': set<(T, T)>, seeds': set<T>)
    requires edges <= edges' && seeds <= seeds'
    ensures Closure(edges, seeds) <= Closure(edges', seeds')
  {
    ClosureIsLeastClosed(edges', seeds');
    forall e | e in edges && e.0 in Closure(edges', seeds') ensures e.1 in Closure(edges', seeds') {
      ClosureFollows(edges', seeds', e.0, e.1);
    }
    ClosureWithin(edges, seeds, Closure(edges', seeds'));
  }

  lemma ClosureTransitive<T(!new)>(edges: set<(T, T)>, seeds: set<T>, x: T)
    requires x in Closure(edges, seeds)
    ensures Closure(edges, {x}) <= Closure(edges, seeds)
  {
    forall e | e in edges && e.0 in Closure(edges, seeds) ensures e.1 in Closure(edges, seeds) {
      ClosureFollows(edges, seeds, e.0, e.1);
    }
    ClosureWithin(edges, {x}, Closure(edges, seeds));
  }

  lemma ClosureHasSeeds<T(!new)>(edges: set<(T, T)>, seeds: set<T>)
    ensures seeds <= Closure(edges, seeds)
  {
    ClosureIsLeastClosed(edges, seeds);
  }

  // ---- walks -----------------------------------------------------------------

  /** A nonempty sequence of nodes, each joined to the next by an edge. */
  ghost predicate Walk<T>(edges: set<(T, T)>, p: seq<T>) {
    |p| > 0 && forall i | 0 <= i < |p| - 1 :: (p[i], p[i + 1]) in edges
  }

  ghost predicate WalkBetween<T>(edges: set<(T, T)>, p: seq<T>, from: T, to: T) {
    Walk(edges, p) && p[0] == from && p[|p| - 1] == to
  }

  ghost predicate Reaches<T(!new)>(edges: set<(T, T)>, from: T, to: T) {
    exists p :: WalkBetween(edges, p, from, to)
  }

  lemma {:induction false} WalkStaysInClosure<T(!new)>(edges: set<(T, T)>, seeds: set<T>, p: seq<T>)
    requires Walk(edges, p) && p[0] in Closure(edges, seeds)
    ensures p[|p| - 1] in Closure(edges, seeds)
    decreases |p|
  {
    if |p| > 1 {
      assert (p[0], p[1]) in edges;
      ClosureFollows(edges, seeds, p[0], p[1]);
      assert Walk(edges, p[1..]) by {
        forall i | 0 <= i < |p[1..]| - 1 ensures (p[1..][i], p[1..][i + 1]) in edges {
          assert (p[i + 1], p[i + 2]) in edges;
        }
      }
      WalkStaysInClosure(edges, seeds, p[1..]);
    }
  }

  /** The recursive query finds exactly the nodes some walk leads to. */
  lemma ClosureIsReachability<T(!new)>(edges: set<(T, T)>, seeds: set<T>, y: T)
    ensures y in Closure(edges, seeds) <==> exists x :: x in seeds && Reaches(edges, x, y)
  {
    var all := Closure(edges, seeds);
    ClosureIsLeastClosed(edges, seeds);
    if x :| x in seeds && Reaches(edges, x, y) {
      var p :| WalkBetween(edges, p, x, y);
      WalkStaysInClosure(edges, seeds, p);
    }
    var walked := set z | z in all && exists x :: x in seeds && Reaches(edges, x, z);
    forall z | z in seeds ensures z in walked {
      assert WalkBetween(edges, [z], z, z);
    }
    forall e | e in edges && e.0 in walked ensures e.1 in walked {
      var x :| x in seeds && Reaches(edges, x, e.0);
      var p :| WalkBetween(edges, p, x, e.0);
      ExtendWalk(edges, p, x, e.0, e.1);
      ClosureFollows(edges, seeds, e.0, e.1);
    }
    ClosureWithin(edges, seeds, walked);
  }

  lemma ExtendWalk<T(!new)>(edges: set<(T, T)>, p: seq<T>, from: T, mid: T, to: T)
    requires WalkBetween(edges, p, from, mid) && (mid, to) in edges
    ensures WalkBetween(edges, p + [to], from, to)
  {
    var q := p + [to];
    forall i | 0 <= i < |q| - 1 ensures (q[i], q[i + 1]) in edges {
      if i < |p| - 1 { assert (p[i], p[i + 1]) in edges; }
    }
  }

  // ---- cycles ----------------------------------------------------------------

  /** No walk of one edge or more comes back to where it began. */
  ghost predicate Acyclic<T(!new)>(edges: set<(T, T)>) {
    forall p | Walk(edges, p) && |p| >= 2 :: p[0] != p[|p| - 1]
  }

  lemma AcyclicIffNoEdgeReturns<T(!new)>(edges: set<(T, T)>)
    ensures Acyclic(edges) <==> forall e | e in edges :: e.0 !in Closure(edges, {e.1})
  {
    if e :| e in edges && e.0 in Closure(edges, {e.1}) {
      ReturnGivesCycle(edges, e);
    }
    if forall e | e in edges :: e.0 !in Closure(edges, {e.1}) {
      forall p | Walk(edges, p) && |p| >= 2 ensures p[0] != p[|p| - 1] {
        assert (p[0], p[1]) in edges;
        ClosureHasSeeds(edges, {p[1]});
        assert Walk(edges, p[1..]) by {
          forall i | 0 <= i < |p[1..]| - 1 ensures (p[1..][i], p[1..][i + 1]) in edges {
            assert (p[i + 1], p[i + 2]) in edges;
          }
        }
        WalkStaysInClosure(edges, {p[1]}, p[1..]);
      }
    }
  }

  lemma ReturnGivesCycle<T(!new)>(edges: set<(T, T)>, e: (T, T))
    requires e in edges && e.0 in Closure(edges, {e.1})
    ensures !Acyclic(edges)
  {
    ClosureIsReachability(edges, {e.1}, e.0);
    var p :| WalkBetween(edges, p, e.1, e.0);
    var q := [e.0] + p;
    forall i | 0 <= i < |q| - 1 ensures (q[i], q[i + 1]) in edges {
      if i > 0 { assert (p[i - 1], p[i]) in edges; }
    }
    assert Walk(edges, q) && q[0] == q[|q| - 1];
  }

  lemma AcyclicSubset<T(!new)>(edges: set<(T, T)>, sub: set<(T, T)>)
    requires Acyclic(edges) && sub <= edges
    ensures Acyclic(sub)
  {
    forall p | Walk(sub, p) && |p| >= 2 ensures p[0] != p[|p| - 1] {
      forall i | 0 <= i < |p| - 1 ensures (p[i], p[i + 1]) in edges {
        assert (p[i], p[i + 1]) in sub;
      }
      assert Walk(edges, p);
    }
  }

  /** A new edge from `m` to `o` keeps the graph acyclic exactly when `o` does not already lead to `m`. */
  lemma AddEdgeAcyclic<T(!new)>(edges: set<(T, T)>, m: T, o: T)
    requires Acyclic(edges)
    ensures Acyclic(edges + {(m, o)}) <==> m !in Closure(edges, {o})
  {
    var more := edges + {(m, o)};
    AcyclicIffNoEdgeReturns(edges);
    AcyclicIffNoEdgeReturns(more);
    var fromO := Closure(edges, {o});
    ClosureHasSeeds(edges, {o});
    if m in fromO {
      ClosureMonotone(edges, {o}, more, {o});
      assert (m, o) in more && (m, o).0 in Closure(more, {(m, o).1});
    } else {
      forall e | e in more ensures e.0 !in Closure(more, {e.1}) {
        NewEdgeDoesNotReturn(edges, m, o, e);
      }
    }
  }

  lemma NewEdgeDoesNotReturn<T(!new)>(edges: set<(T, T)>, m: T, o: T, e: (T, T))
    requires forall f | f in edges :: f.0 !in Closure(edges, {f.1})
    requires m !in Closure(edges, {o}) && e in edges + {(m, o)}
    ensures e.0 !in Closure(edges + {(m, o)}, {e.1})
  {
    var more := edges + {(m, o)};
    var fromO, fromY := Closure(edges, {o}), Closure(edges, {e.1});
    ClosureHasSeeds(edges, {o});
    ClosureHasSeeds(edges, {e.1});
    forall f | f in edges && f.0 in fromO ensures f.1 in fromO { ClosureFollows(edges, {o}, f.0, f.1); }
    forall f | f in edges && f.0 in fromY ensures f.1 in fromY { ClosureFollows(edges, {e.1}, f.0, f.1); }
    if m !in fromY {
      ClosureWithin(more, {e.1}, fromY);
    } else {
      ClosureWithin(more, {e.1}, fromY + fromO);
      if e.0 in fromO {
        if e in edges {
          // the edge leads on to e.1, hence to m, from o
          ClosureTransitive(edges, {o}, e.1);
        }
      }
    }
  }

  /** What one more edge adds to a closure: the part its target leads to, if its source was already there. */
  lemma ClosureAfterAddEdge<T(!new)>(edges: set<(T, T)>, m: T, o: T, seed: T)
    ensures Closure(edges + {(m, o)}, {seed})
         == Closure(edges, {seed}) + (if m in Closure(edges, {seed}) then Closure(edges, {o}) else {})
  {
    var more := edges + {(m, o)};
    var before, fromO := Closure(edges, {seed}), Closure(edges, {o});
    var after := Closure(more, {seed});
    ClosureHasSeeds(edges, {seed});
    ClosureHasSeeds(edges, {o});
    ClosureHasSeeds(more, {seed});
    forall f | f in edges && f.0 in fromO ensures f.1 in fromO { ClosureFollows(edges, {o}, f.0, f.1); }
    forall f | f in edges && f.0 in before ensures f.1 in before { ClosureFollows(edges, {seed}, f.0, f.1); }
    ClosureMonotone(edges, {seed}, more, {seed});
    if m in before {
      ClosureFollows(more, {seed}, m, o);
      ClosureTransitive(more, {seed}, o);
      ClosureMonotone(edges, {o}, more, {o});
      ClosureWithin(more, {seed}, before + fromO);
    } else {
      ClosureWithin(more, {seed}, before);
    }
  }
}
