/**
 Counting the distinct cells of a contract's data (scripts/profile_registry_storage_economics.ts): a
 depth-first walk of a shared graph that remembers the cells it has seen and returns early on them.
 */
module DataCells {
  import opened Results
  import opened Cells

  /** The cells reachable from `c`, each once. */
  ghost function Reach(c: Cell): (cells: set<Cell>)
    ensures c in cells
  {
    {c} + ReachAll(c.refs)
  }

  ghost function ReachAll(cs: seq<Cell>): set<Cell> {
    if |cs| == 0 then {} else Reach(cs[0]) + ReachAll(cs[1..])
  }

  function Height(c: Cell): nat {
    1 + HeightAll(c.refs)
  }

  function HeightAll(cs: seq<Cell>): nat {
    if |cs| == 0 then 0
    else
      var a, b := Height(cs[0]), HeightAll(cs[1..]);
      if a > b then a else b
  }

  lemma {:induction false} RefIsLower(cs: seq<Cell>, k: nat)
    requires k < |cs|
    ensures Height(cs[k]) <= HeightAll(cs)
  {
    if k > 0 {
      RefIsLower(cs[1..], k - 1);
    }
  }

  lemma {:induction false} ReachAllAppend(cs: seq<Cell>, c: Cell)
    ensures ReachAll(cs + [c]) == ReachAll(cs) + Reach(c)
  {
    if |cs| == 0 {
      assert cs + [c] == [c] && [c][1..] == [];
    } else {
      assert (cs + [c])[1..] == cs[1..] + [c];
      ReachAllAppend(cs[1..], c);
    }
  }

  /** Every seen cell that is not still being walked has all its references seen. */
  ghost predicate Settled(seen: set<Cell>, open: set<Cell>) {
    forall c, k | c in seen && c !in open && 0 <= k < |c.refs| :: c.refs[k] in seen
  }

  /** Cells still being walked stand above `h`, so nothing at or below `h` is one of them. */
  ghost predicate Above(open: set<Cell>, h: nat) {
    forall c | c in open :: Height(c) > h
  }

  /** A settled cell below the open ones was seen with everything it reaches. */
  lemma {:induction false} SeenMeansReached(c: Cell, seen: set<Cell>, open: set<Cell>)
    requires c in seen && Settled(seen, open) && Above(open, Height(c))
    ensures Reach(c) <= seen
    decreases Height(c), 0, 0
  {
    assert c !in open;
    SeenAllReached(c, c.refs, seen, open);
  }

  lemma {:induction false} SeenAllReached(c: Cell, cs: seq<Cell>, seen: set<Cell>, open: set<Cell>)
    requires Settled(seen, open) && Above(open, Height(c)) && HeightAll(cs) < Height(c)
    requires forall k | 0 <= k < |cs| :: cs[k] in seen
    ensures ReachAll(cs) <= seen
    decreases HeightAll(cs), 1, |cs|
  {
    if |cs| > 0 {
      SeenMeansReached(cs[0], seen, open);
      SeenAllReached(c, cs[1..], seen, open);
    }
  }

  lemma ReachUnfolds(c: Cell)
    ensures Reach(c) == {c} + ReachAll(c.refs) && ReachAll(c.refs[..0]) == {}
  {
  }

  lemma EnterCell(cell: Cell, seen: set<Cell>, open: set<Cell>)
    requires Settled(seen, open) && cell !in seen
    ensures Settled(seen + {cell}, open + {cell}) && |seen + {cell}| == |seen| + 1
  {
  }

  lemma EnterRef(cell: Cell, k: nat, open: set<Cell>)
    requires Above(open, Height(cell)) && k < |cell.refs|
    ensures Above(open + {cell}, Height(cell.refs[k]))
  {
    RefIsLower(cell.refs, k);
  }

  lemma LeaveCell(cell: Cell, seen: set<Cell>, open: set<Cell>)
    requires Settled(seen, open + {cell}) && forall k | 0 <= k < |cell.refs| :: cell.refs[k] in seen
    ensures Settled(seen, open)
  {
  }

  class Walker {
    var seen: set<Cell>
    var count: nat

    constructor ()
      ensures seen == {} && count == 0
    {
      seen, count := {}, 0;
    }

    /** Adds exactly what is reachable and not seen before, and counts it. */
    method Walk(cell: Cell, ghost open: set<Cell>)
      requires Settled(seen, open) && Above(open, Height(cell))
      modifies this
      ensures Settled(seen, open)
      ensures seen == old(seen) + Reach(cell)
      ensures count == old(count) + |seen| - |old(seen)|
      decreases cell
    {
      hide Height, HeightAll, Reach, ReachAll, Settled, Above;
      if cell in seen {
        SeenMeansReached(cell, seen, open);
        assert seen == seen + Reach(cell);
        return;
      }
      EnterCell(cell, seen, open);
      ReachUnfolds(cell);
      seen := seen + {cell};
      count := count + 1;
      var k := 0;
      while k < |cell.refs|
        invariant 0 <= k <= |cell.refs|
        invariant Settled(seen, open + {cell})
        invariant seen == old(seen) + {cell} + ReachAll(cell.refs[..k])
        invariant forall j | 0 <= j < k :: cell.refs[j] in seen
        invariant count == old(count) + |seen| - |old(seen)|
      {
        EnterRef(cell, k, open);
        Walk(cell.refs[k], open + {cell});
        ReachAllAppend(cell.refs[..k], cell.refs[k]);
        assert cell.refs[..k + 1] == cell.refs[..k] + [cell.refs[k]];
        k := k + 1;
      }
      assert cell.refs[..k] == cell.refs;
      LeaveCell(cell, seen, open);
    }
  }

  /** The number of distinct cells reachable from the root; an account without data has none. */
  method CountDataCells(root: Option<Cell>) returns (n: nat)
    ensures n == if root.None? then 0 else |Reach(root.value)|
  {
    if root.None? {
      return 0;
    }
    var w := new Walker();
    w.Walk(root.value, {});
    assert w.seen == Reach(root.value);
    n := w.count;
  }

  ghost predicate Path(p: seq<Cell>) {
    |p| > 0 && forall i | 0 <= i < |p| - 1 :: p[i + 1] in p[i].refs
  }

  /** `Reach` is reachability: exactly the cells at the end of some path of references. */
  lemma {:induction false} ReachIsReachability(c: Cell, d: Cell)
    ensures d in Reach(c) <==> exists p :: Path(p) && p[0] == c && p[|p| - 1] == d
  {
    if d in Reach(c) {
      var p := PathTo(c, d);
    }
    if p :| Path(p) && p[0] == c && p[|p| - 1] == d {
      PathReaches(p);
    }
  }

  lemma {:induction false} PathTo(c: Cell, d: Cell) returns (p: seq<Cell>)
    requires d in Reach(c)
    ensures Path(p) && p[0] == c && p[|p| - 1] == d
    decreases c
  {
    if d == c {
      p := [c];
    } else {
      var k := RefToward(c.refs, d);
      var q := PathTo(c.refs[k], d);
      p := [c] + q;
      assert forall i | 0 < i < |p| - 1 :: p[i] == q[i - 1] && p[i + 1] == q[i];
    }
  }

  lemma {:induction false} RefToward(cs: seq<Cell>, d: Cell) returns (k: nat)
    requires d in ReachAll(cs)
    ensures k < |cs| && d in Reach(cs[k])
  {
    if d in Reach(cs[0]) {
      k := 0;
    } else {
      var j := RefToward(cs[1..], d);
      k := j + 1;
    }
  }

  lemma {:induction false} PathReaches(p: seq<Cell>)
    requires Path(p)
    ensures p[|p| - 1] in Reach(p[0])
    decreases |p|
  {
    if |p| > 1 {
      PathReaches(p[1..]);
      var k :| 0 <= k < |p[0].refs| && p[0].refs[k] == p[1];
      ReachThrough(p[0].refs, k, p[|p| - 1]);
    }
  }

  lemma {:induction false} ReachThrough(cs: seq<Cell>, k: nat, d: Cell)
    requires k < |cs| && d in Reach(cs[k])
    ensures d in ReachAll(cs)
  {
    if k > 0 {
      ReachThrough(cs[1..], k - 1, d);
    }
  }
}
