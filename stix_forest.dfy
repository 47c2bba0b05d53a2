/** The node table that `flatten_sco` builds with anytree: every node has
    its attribute map, at most one parent, the reference attribute that
    attached it, and the ordered list of its children that anytree keeps;
    the `nodes` dict maps ids to nodes. A node is its index in the table. */
module StixForest {
  import opened Wrappers
  import opened Text
  import opened Json

  /** A ghost rank below `bound` that strictly grows from every node to its
      parent: following parents always ends, so no node is its own
      ancestor. */
  ghost predicate Ranked(parent: seq<Option<nat>>, rank: seq<nat>, bound: nat) {
    && |rank| == |parent|
    && (forall x :: 0 <= x < |rank| ==> rank[x] < bound)
    && (forall x :: 0 <= x < |parent| && parent[x].Some? ==>
          parent[x].value < |parent| && rank[x] < rank[parent[x].value])
  }

  /** `c` is `x` itself or one of its ancestors. */
  ghost predicate Below(parent: seq<Option<nat>>, rank: seq<nat>, bound: nat, x: nat, c: nat)
    requires Ranked(parent, rank, bound) && x < |parent|
    decreases bound - rank[x]
  {
    x == c || (parent[x].Some? && Below(parent, rank, bound, parent[x].value, c))
  }

  /** An ancestor of `x` (or `x`) never has a smaller rank. */
  lemma {:induction false} BelowRank(parent: seq<Option<nat>>, rank: seq<nat>, bound: nat, x: nat, c: nat)
    requires Ranked(parent, rank, bound) && x < |parent| && Below(parent, rank, bound, x, c)
    ensures c < |parent| && rank[x] <= rank[c]
    decreases bound - rank[x]
  {
    if x != c {
      BelowRank(parent, rank, bound, parent[x].value, c);
    }
  }

  /** The ranks after `c` moves under a new parent: the subtree of `c` keeps
      its ranks and every other node is lifted above all old ranks. */
  ghost function Shift(parent: seq<Option<nat>>, rank: seq<nat>, bound: nat, c: nat): (r: seq<nat>)
    requires Ranked(parent, rank, bound)
    ensures |r| == |rank|
  {
    seq(|rank|, x requires 0 <= x < |rank| => if Below(parent, rank, bound, x, c) then rank[x] else rank[x] + bound)
  }

  /** Moving `c` under a node `p` outside its subtree keeps the parent
      links acyclic: anytree refuses exactly the other moves. */
  lemma ShiftRanked(parent: seq<Option<nat>>, rank: seq<nat>, bound: nat, c: nat, p: nat)
    requires Ranked(parent, rank, bound) && c < |parent| && p < |parent|
    requires !Below(parent, rank, bound, p, c)
    ensures Ranked(parent[c := Some(p)], Shift(parent, rank, bound, c), 2 * bound)
  {
    var s := Shift(parent, rank, bound, c);
    var moved := parent[c := Some(p)];
    forall x | 0 <= x < |moved| && moved[x].Some?
      ensures moved[x].value < |moved| && s[x] < s[moved[x].value]
    {
      if x != c {
        var q := parent[x].value;
        assert Below(parent, rank, bound, x, c) == Below(parent, rank, bound, q, c);
      }
    }
  }

  /** Moving `x` under `p` changes neither the ancestors of a node `y`
      outside the subtree of `x`, whatever ranks the new links carry. */
  lemma {:induction false} BelowMoved(parent: seq<Option<nat>>, rank: seq<nat>, bound: nat,
                                      rank': seq<nat>, bound': nat, x: nat, p: nat, y: nat, c: nat)
    requires x < |parent| && y < |parent|
    requires Ranked(parent, rank, bound) && Ranked(parent[x := Some(p)], rank', bound')
    requires !Below(parent, rank, bound, y, x)
    ensures Below(parent[x := Some(p)], rank', bound', y, c) == Below(parent, rank, bound, y, c)
    decreases bound - rank[y]
  {
    if y != c && parent[y].Some? {
      BelowMoved(parent, rank, bound, rank', bound', x, p, parent[y].value, c);
    }
  }

  /** The node `n` parent links above `x`, when there is one. */
  function Up(parent: seq<Option<nat>>, x: nat, n: nat): Option<nat>
    decreases n
  {
    if n == 0 then Some(x)
    else if x < |parent| && parent[x].Some? then Up(parent, parent[x].value, n - 1)
    else None
  }

  /** `c` is `x` itself or one of its ancestors, read off the parent links
      alone. */
  ghost predicate Reaches(parent: seq<Option<nat>>, x: nat, c: nat) {
    exists n: nat :: Up(parent, x, n) == Some(c)
  }

  /** The ranks only bound the walk up: `Below` is `Reaches`. */
  lemma {:induction false} BelowReaches(parent: seq<Option<nat>>, rank: seq<nat>, bound: nat, x: nat, c: nat)
    requires Ranked(parent, rank, bound) && x < |parent|
    ensures Below(parent, rank, bound, x, c) <==> Reaches(parent, x, c)
    decreases bound - rank[x]
  {
    assert Up(parent, x, 0) == Some(x);
    if x != c && parent[x].Some? {
      var y := parent[x].value;
      BelowReaches(parent, rank, bound, y, c);
      if Reaches(parent, x, c) {
        var n: nat :| Up(parent, x, n) == Some(c);
        assert Up(parent, y, n - 1) == Some(c);
      }
      if Reaches(parent, y, c) {
        var n: nat :| Up(parent, y, n) == Some(c);
        assert Up(parent, x, n + 1) == Some(c);
      }
    } else if x != c {
      forall n: nat
        ensures Up(parent, x, n) != Some(c)
      {
      }
    }
  }

  /** The children lists agree with the parent links: every child names its
      parent, every node with a parent is listed once under it. */
  ghost predicate Linked(parent: seq<Option<nat>>, children: seq<seq<nat>>) {
    && |children| == |parent|
    && (forall x, y {:trigger y in children[x]} :: 0 <= x < |children| && y in children[x] ==> y < |parent| && parent[y] == Some(x))
    && (forall y :: 0 <= y < |parent| && parent[y].Some? ==>
          parent[y].value < |children| && y in children[parent[y].value])
    && (forall x :: 0 <= x < |children| ==> Distinct(children[x]))
  }

  /** anytree's detach: `c` leaves the children list of its old parent. */
  function Detach(children: seq<seq<nat>>, from: Option<nat>, c: nat): seq<seq<nat>> {
    if from.Some? && from.value < |children| then children[from.value := Remove(children[from.value], c)]
    else children
  }

  /** anytree's attach: `c` goes last in the children list of `p`. */
  function Attach(children: seq<seq<nat>>, p: nat, c: nat): seq<seq<nat>>
    requires p < |children|
  {
    children[p := children[p] + [c]]
  }

  /** Detaching `c` from its parent and attaching it to another keeps the
      children lists in agreement with the parent links. */
  lemma RelinkLinked(parent: seq<Option<nat>>, children: seq<seq<nat>>, c: nat, p: nat)
    requires Linked(parent, children) && c < |parent| && p < |parent| && parent[c] != Some(p)
    ensures Linked(parent[c := Some(p)], Attach(Detach(children, parent[c], c), p, c))
  {
    var d := Detach(children, parent[c], c);
    var a := Attach(d, p, c);
    var moved := parent[c := Some(p)];
    assert |a| == |d| == |children|;
    forall x, y | 0 <= x < |d| && y in d[x]
      ensures y in children[x] && y != c
    {
      if parent[c].Some? && x == parent[c].value {
      } else {
        assert d[x] == children[x];
      }
    }
    forall x, y | 0 <= x < |a| && y in a[x]
      ensures y < |moved| && moved[y] == Some(x)
    {
      if x == p && y == c {
      } else {
        assert y in d[x];
      }
    }
    forall y | 0 <= y < |moved| && moved[y].Some?
      ensures moved[y].value < |a| && y in a[moved[y].value]
    {
      if y != c {
        var q := parent[y].value;
        assert y in children[q];
        assert y in d[q];
      }
    }
    forall x | 0 <= x < |a|
      ensures Distinct(a[x])
    {
      assert Distinct(children[x]);
      assert Distinct(d[x]);
      if x == p {
        assert c !in d[p];
      }
    }
  }

  /** The ranks after a new node joins: every old node moves up by one and
      the new one takes rank zero. */
  ghost function Lift(rank: seq<nat>): (r: seq<nat>)
    ensures |r| == |rank| + 1 && r[|rank|] == 0
    ensures forall x :: 0 <= x < |rank| ==> r[x] == rank[x] + 1
  {
    seq(|rank|, x requires 0 <= x < |rank| => rank[x] + 1) + [0]
  }

  /** The children lists once a new node `x` joins, under `par` if given. */
  function Joined(children: seq<seq<nat>>, par: Option<nat>, x: nat): seq<seq<nat>>
    requires par.Some? ==> par.value < |children|
  {
    if par.Some? then Attach(children + [[]], par.value, x) else children + [[]]
  }

  /** A new leaf node, with or without a parent, keeps the links acyclic
      and in agreement with the children lists. */
  lemma AddLinked(parent: seq<Option<nat>>, rank: seq<nat>, bound: nat, children: seq<seq<nat>>, par: Option<nat>)
    requires Ranked(parent, rank, bound) && Linked(parent, children)
    requires par.Some? ==> par.value < |parent|
    ensures Ranked(parent + [par], Lift(rank), bound + 1)
    ensures Linked(parent + [par], Joined(children, par, |parent|))
  {
    var x := |parent|;
    var parent' := parent + [par];
    var c := Joined(children, par, x);
    assert forall y :: 0 <= y < |parent| ==> parent'[y] == parent[y];
    forall y, z | 0 <= y < |c| && z in c[y]
      ensures z < |parent'| && parent'[z] == Some(y)
    {
      if z != x {
        assert y < |children| && z in children[y];
      }
    }
    forall y | 0 <= y < |parent'| && parent'[y].Some?
      ensures parent'[y].value < |c| && y in c[parent'[y].value]
    {
      if y != x {
        assert y in children[parent[y].value];
      }
    }
    forall y | 0 <= y < |c|
      ensures Distinct(c[y])
    {
      if y < |children| {
        assert Distinct(children[y]);
        assert x !in children[y];
      }
    }
  }

  /** The ids name nodes below `n`, and the key order lists each id once. */
  ghost predicate NamedBy(ids: map<string, nat>, order: seq<string>, n: nat) {
    && (forall k :: k in ids ==> ids[k] < n)
    && Distinct(order)
    && (forall k :: k in ids <==> k in order)
  }

  /** Naming a node of the table keeps the names consistent. */
  lemma AddNamed(ids: map<string, nat>, order: seq<string>, n: nat, key: string, x: nat)
    requires NamedBy(ids, order, n) && x < n
    ensures NamedBy(ids[key := x], if key in ids then order else order + [key], n)
  {
    if key !in ids {
      var order' := order + [key];
      assert forall i :: 0 <= i < |order| ==> order'[i] == order[i];
      assert forall k :: k in order' <==> k in order || k == key;
    }
  }

  /** The node table as one value: its attribute maps, parent links,
      prefixes, children lists and `nodes` dict, without the ghost ranks. */
  datatype Forest = Forest(fields: seq<Value>, parent: seq<Option<nat>>, prefix: seq<Option<string>>,
                           children: seq<seq<nat>>, ids: map<string, nat>, order: seq<string>)

  /** The per-node lists have one entry per node and the ids name nodes. */
  ghost predicate Shaped(f: Forest) {
    && |f.fields| == |f.parent| == |f.prefix| == |f.children|
    && forall k :: k in f.ids ==> f.ids[k] < |f.fields|
  }

  /** `nodes[key] = Node(key, parent=par, fields=v)`, with the prefix set,
      on the value: the new node goes last in its parent's children and
      `key` names it. */
  function Added(f: Forest, key: string, v: Value, par: Option<nat>, pfx: Option<string>): (g: Forest)
    requires Shaped(f) && (par.Some? ==> par.value < |f.fields|)
    ensures Shaped(g) && |g.fields| == |f.fields| + 1 && g.fields[..|f.fields|] == f.fields
    ensures key in g.ids && g.ids[key] == |f.fields|
    ensures forall k :: k in f.ids ==> k in g.ids
  {
    var x := |f.fields|;
    Forest(f.fields + [v], f.parent + [par], f.prefix + [pfx], Joined(f.children, par, x),
           f.ids[key := x], if key in f.ids then f.order else f.order + [key])
  }

  /** anytree's parent setter on the value, for a move it accepts: nothing
      changes when `p` already is the parent of `c`; otherwise `c` leaves
      its old parent's children and goes last among those of `p`. */
  function Moved(f: Forest, c: nat, p: nat): (g: Forest)
    requires Shaped(f) && c < |f.fields| && p < |f.fields|
    ensures Shaped(g) && g.fields == f.fields && g.prefix == f.prefix && g.ids == f.ids && g.order == f.order
    ensures g.parent == f.parent[c := Some(p)]
  {
    if f.parent[c] == Some(p) then f
    else f.(parent := f.parent[c := Some(p)], children := Attach(Detach(f.children, f.parent[c], c), p, c))
  }

  /** `node.prefix = s` on the value. */
  function Prefixed(f: Forest, x: nat, s: string): (g: Forest)
    requires Shaped(f) && x < |f.fields|
    ensures Shaped(g) && g == f.(prefix := f.prefix[x := Some(s)])
  {
    f.(prefix := f.prefix[x := Some(s)])
  }

  /** Every node of `rs` is a node without a parent. */
  ghost predicate Parentless(parent: seq<Option<nat>>, rs: seq<nat>) {
    forall m :: 0 <= m < |rs| ==> rs[m] < |parent| && parent[rs[m]].None?
  }

  lemma ParentlessWithin(parent: seq<Option<nat>>, rs: seq<nat>, roots: seq<nat>)
    requires Parentless(parent, rs) && forall r :: r in roots ==> r in rs
    ensures Parentless(parent, roots)
  {
    forall m | 0 <= m < |roots|
      ensures roots[m] < |parent| && parent[roots[m]].None?
    {
      assert roots[m] in rs;
      var j :| 0 <= j < |rs| && rs[j] == roots[m];
    }
  }

  lemma FirstSeenSnoc(rs: seq<nat>, i: nat)
    requires i < |rs|
    ensures FirstSeenOf(rs[..i + 1]) == if rs[i] in FirstSeenOf(rs[..i]) then FirstSeenOf(rs[..i])
                                        else FirstSeenOf(rs[..i]) + [rs[i]]
  {
    assert rs[..i + 1][..i] == rs[..i];
  }

  /** The values of `rs`, each once, in the order they are first met. */
  function FirstSeenOf(rs: seq<nat>): (roots: seq<nat>)
    ensures Distinct(roots) && forall r :: r in roots <==> r in rs
    decreases |rs|
  {
    if rs == [] then []
    else
      var seen := FirstSeenOf(rs[..|rs| - 1]);
      var r := rs[|rs| - 1];
      assert forall q :: q in rs <==> q in rs[..|rs| - 1] || q == r;
      if r in seen then seen
      else
        assert forall i :: 0 <= i < |seen| ==> (seen + [r])[i] == seen[i];
        seen + [r]
  }

  class NodeTable {
    /** Each node's `fields`: the attribute map of the object it stands for. */
    var fields: seq<Value>
    /** Each node's parent, if it has one. */
    var parent: seq<Option<nat>>
    /** The `prefix` attribute: the reference that attached the node. */
    var prefix: seq<Option<string>>
    /** anytree's ordered children of each node. */
    var children: seq<seq<nat>>
    /** The `nodes` dict: from id to node ... */
    var ids: map<string, nat>
    /** ... and its keys in insertion order. */
    var order: seq<string>
    ghost var rank: seq<nat>
    ghost var bound: nat

    /** The ids name nodes of the table, and the key order lists each id once. */
    ghost predicate Named()
      reads this
    {
      NamedBy(ids, order, |fields|)
    }

    ghost predicate Valid()
      reads this
    {
      && |fields| == |parent| == |prefix|
      && Ranked(parent, rank, bound)
      && Linked(parent, children)
      && Named()
    }

    /** The table as a value. */
    ghost function Snap(): (f: Forest)
      reads this
      ensures Valid() ==> Shaped(f)
    {
      Forest(fields, parent, prefix, children, ids, order)
    }

    /** `c` is `x` itself or one of its ancestors. */
    ghost predicate AncestorOrSelf(c: nat, x: nat)
      reads this
      requires Valid() && x < |parent|
    {
      Below(parent, rank, bound, x, c)
    }

    /** An empty `nodes` dict. */
    constructor ()
      ensures fields == [] && ids == map[] && order == []
      ensures Valid()
    {
      fields, parent, prefix, children := [], [], [], [];
      ids, order := map[], [];
      rank, bound := [], 1;
    }

    /** `nodes[key] = Node(key, parent=par, fields=f)`, with the prefix set:
        the new node goes last in its parent's children, and `key` names it
        from now on (an old node under the same key loses its name but
        stays in the forest). */
    method AddNode(key: string, f: Value, par: Option<nat>, pfx: Option<string>) returns (x: nat)
      requires Valid() && (par.Some? ==> par.value < |fields|)
      modifies this
      ensures x == old(|fields|)
      ensures fields == old(fields) + [f] && parent == old(parent) + [par] && prefix == old(prefix) + [pfx]
      ensures children == Joined(old(children), par, x)
      ensures ids == old(ids)[key := x]
      ensures order == if key in old(ids) then old(order) else old(order) + [key]
      ensures Valid()
      ensures Snap() == Added(old(Snap()), key, f, par, pfx)
    {
      x := Grow(f, par, pfx);
      Name(key, x);
    }

    /** A new node at the end of the table, last among its parent's
        children, with no id naming it yet. */
    method Grow(f: Value, par: Option<nat>, pfx: Option<string>) returns (x: nat)
      requires Valid() && (par.Some? ==> par.value < |fields|)
      modifies this
      ensures x == old(|fields|)
      ensures fields == old(fields) + [f] && parent == old(parent) + [par] && prefix == old(prefix) + [pfx]
      ensures children == Joined(old(children), par, x)
      ensures ids == old(ids) && order == old(order)
      ensures Valid()
    {
      x := |fields|;
      AddLinked(parent, rank, bound, children, par);
      fields, parent, prefix := fields + [f], parent + [par], prefix + [pfx];
      children := Joined(children, par, x);
      rank, bound := Lift(rank), bound + 1;
    }

    /** `nodes[key] = ...`: `key` names node `x` from now on. */
    method Name(key: string, x: nat)
      requires Valid() && x < |fields|
      modifies this
      ensures fields == old(fields) && parent == old(parent) && prefix == old(prefix) && children == old(children)
      ensures ids == old(ids)[key := x]
      ensures order == if key in old(ids) then old(order) else old(order) + [key]
      ensures Valid()
    {
      AddNamed(ids, order, |fields|, key, x);
      if key !in ids {
        order := order + [key];
      }
      ids := ids[key := x];
    }

    /** anytree's parent setter: nothing happens when `p` already is the
        parent of `c`; the move is refused (a `LoopError`) when `c` is `p`
        or one of its ancestors; otherwise `c` moves under `p`. */
    method SetParent(c: nat, p: nat) returns (ok: bool)
      requires Valid() && c < |fields| && p < |fields|
      modifies this
      ensures ok <==> !old(AncestorOrSelf(c, p))
      ensures parent == if ok then old(parent)[c := Some(p)] else old(parent)
      ensures children == if ok && old(parent[c]) != Some(p)
                          then Attach(Detach(old(children), old(parent[c]), c), p, c)
                          else old(children)
      ensures fields == old(fields) && prefix == old(prefix) && ids == old(ids) && order == old(order)
      ensures Valid()
      ensures Snap() == if ok then Moved(old(Snap()), c, p) else old(Snap())
    {
      if parent[c] == Some(p) {
        if AncestorOrSelf(c, p) {
          BelowRank(parent, rank, bound, p, c);
        }
        return true;
      }
      var loop := IsAncestorOrSelf(c, p);
      if loop {
        return false;
      }
      Move(c, p);
      ok := true;
    }

    /** The move itself: `c` leaves its old parent's children and goes last
        among those of `p`. */
    method Move(c: nat, p: nat)
      requires Valid() && c < |fields| && p < |fields|
      requires parent[c] != Some(p) && !AncestorOrSelf(c, p)
      modifies this
      ensures parent == old(parent)[c := Some(p)]
      ensures children == Attach(Detach(old(children), old(parent[c]), c), p, c)
      ensures fields == old(fields) && prefix == old(prefix) && ids == old(ids) && order == old(order)
      ensures Valid()
    {
      ShiftRanked(parent, rank, bound, c, p);
      RelinkLinked(parent, children, c, p);
      rank := Shift(parent, rank, bound, c);
      bound := 2 * bound;
      children := Attach(Detach(children, parent[c], c), p, c);
      parent := parent[c := Some(p)];
    }

    /** `node.prefix = s`. */
    method SetPrefix(x: nat, s: string)
      requires Valid() && x < |prefix|
      modifies this
      ensures prefix == old(prefix)[x := Some(s)]
      ensures fields == old(fields) && parent == old(parent) && children == old(children)
      ensures ids == old(ids) && order == old(order)
      ensures Valid()
      ensures Snap() == Prefixed(old(Snap()), x, s)
    {
      prefix := prefix[x := Some(s)];
    }

    /** The walk up from `x` that anytree does before a move. */
    method IsAncestorOrSelf(c: nat, x: nat) returns (b: bool)
      requires Valid() && x < |parent|
      ensures b == AncestorOrSelf(c, x)
    {
      var y: nat := x;
      while y != c && parent[y].Some?
        invariant y < |parent|
        invariant AncestorOrSelf(c, x) == AncestorOrSelf(c, y)
        decreases bound - rank[y]
      {
        y := parent[y].value;
      }
      b := y == c;
    }

    /** `node.root`: the ancestor of `x` that has no parent. */
    function RootOf(x: nat): (r: nat)
      reads this
      requires Valid() && x < |parent|
      ensures r < |parent| && parent[r].None? && AncestorOrSelf(r, x)
      decreases bound - rank[x]
    {
      if parent[x].None? then x else RootOf(parent[x].value)
    }

    /** The walk up to the root. */
    method Root(x: nat) returns (r: nat)
      requires Valid() && x < |parent|
      ensures r == RootOf(x)
    {
      r := x;
      while parent[r].Some?
        invariant r < |parent| && RootOf(r) == RootOf(x)
        decreases bound - rank[r]
      {
        r := parent[r].value;
      }
    }

    /** What one node adds to the path of its descendants: its prefix and a
        dot, or nothing when it has no prefix. */
    function Segment(x: nat): string
      reads this
      requires x < |prefix|
    {
      if prefix[x].Some? then prefix[x].value + "." else ""
    }

    /** The dotted path from the root down to `x`: the segments of every
        node on the way that has a parent, the root's own excluded. */
    function Labels(x: nat): (s: string)
      reads this
      requires Valid() && x < |parent|
      decreases bound - rank[x]
    {
      if parent[x].None? then "" else Labels(parent[x].value) + Segment(x)
    }

    /** The `while tmp.parent` walk that builds the path of `x` from the
        bottom up. */
    method PathPrefix(x: nat) returns (pre: string)
      requires Valid() && x < |parent|
      ensures pre == Labels(x)
    {
      var y: nat := x;
      pre := "";
      while parent[y].Some?
        invariant y < |parent| && Labels(x) == Labels(y) + pre
        decreases bound - rank[y]
      {
        var seg := Segment(y);
        assert Labels(y) + pre == Labels(parent[y].value) + (seg + pre);
        pre := seg + pre;
        y := parent[y].value;
      }
    }

    /** `PreOrderIter(x)`: `x`, then the pre-order walk of each child in turn. */
    function PreOrder(x: nat): (r: seq<nat>)
      reads this
      requires Valid() && x < |parent|
      ensures r != [] && r[0] == x
      ensures forall i :: 0 <= i < |r| ==> r[i] < |parent|
      decreases rank[x], 1
    {
      [x] + PreOrderFrom(x, 0)
    }

    /** The pre-order walks of the children of `x` from the `i`-th on. */
    function PreOrderFrom(x: nat, i: nat): (r: seq<nat>)
      reads this
      requires Valid() && x < |parent| && i <= |children[x]|
      ensures forall j :: 0 <= j < |r| ==> r[j] < |parent|
      decreases rank[x], 0, |children[x]| - i
    {
      if i == |children[x]| then []
      else
        var c := children[x][i];
        assert c in children[x];
        PreOrder(c) + PreOrderFrom(x, i + 1)
    }

    /** A child's walk is part of its parent's. */
    lemma {:induction false} PreOrderFromHas(x: nat, i: nat, y: nat)
      requires Valid() && x < |parent| && i <= |children[x]|
      requires y in children[x][i..]
      ensures y < |parent| && forall z :: z in PreOrder(y) ==> z in PreOrderFrom(x, i)
      decreases |children[x]| - i
    {
      assert y in children[x];
      if children[x][i] != y {
        assert y in children[x][i + 1..];
        PreOrderFromHas(x, i + 1, y);
      }
    }

    /** Every node appears in the pre-order walk of its root, so the walk
        of all roots visits the whole forest. */
    lemma {:induction false} InRootWalk(y: nat)
      requires Valid() && y < |parent|
      ensures y in PreOrder(RootOf(y))
      decreases bound - rank[y]
    {
      if parent[y].Some? {
        var q := parent[y].value;
        InRootWalk(q);
        assert y in children[q];
        PreOrderFromHas(q, 0, y);
        assert y in PreOrder(y);
        PreOrderIn(RootOf(q), q);
      }
    }

    /** A node's walk is part of the walk of every node whose walk contains it. */
    lemma {:induction false} PreOrderIn(x: nat, y: nat)
      requires Valid() && x < |parent| && y in PreOrder(x)
      ensures y < |parent| && forall z :: z in PreOrder(y) ==> z in PreOrder(x)
      decreases rank[x], 1
    {
      if y != x {
        PreOrderFromIn(x, 0, y);
      }
    }

    lemma {:induction false} PreOrderFromIn(x: nat, i: nat, y: nat)
      requires Valid() && x < |parent| && i <= |children[x]| && y in PreOrderFrom(x, i)
      ensures y < |parent| && forall z :: z in PreOrder(y) ==> z in PreOrderFrom(x, i)
      decreases rank[x], 0, |children[x]| - i
    {
      var c := children[x][i];
      assert c in children[x];
      if y in PreOrder(c) {
        PreOrderIn(c, y);
      } else {
        PreOrderFromIn(x, i + 1, y);
      }
    }

    /** `nodes.values()`: the node each id names, in key order. */
    function Nodes(): (r: seq<nat>)
      reads this
      requires Valid()
      ensures |r| == |order|
      ensures forall j :: 0 <= j < |r| ==> order[j] in ids && r[j] == ids[order[j]] && r[j] < |parent|
    {
      var keys, m := order, ids;
      assert forall j :: 0 <= j < |keys| ==> keys[j] in m;
      seq(|keys|, j requires 0 <= j < |keys| => m[keys[j]])
    }

    /** The root of each node of `xs`. */
    ghost function RootsOf(xs: seq<nat>): (rs: seq<nat>)
      reads this
      requires Valid() && forall j :: 0 <= j < |xs| ==> xs[j] < |parent|
      ensures |rs| == |xs| && forall j :: 0 <= j < |xs| ==> rs[j] == RootOf(xs[j])
    {
      if xs == [] then [] else [RootOf(xs[0])] + RootsOf(xs[1..])
    }

    /** `set(node.root for node in nodes.values())`, listed in the order the
        roots are first met: the root of every named node, each once, and
        nothing else. */
    method CollectRoots() returns (roots: seq<nat>)
      requires Valid()
      ensures Distinct(roots)
      ensures forall r :: r in roots <==> r in RootsOf(Nodes())
      ensures forall i :: 0 <= i < |roots| ==> roots[i] < |parent| && parent[roots[i]].None?
      ensures roots == FirstSeenOf(RootsOf(Nodes()))
    {
      var xs := Nodes();
      ghost var rs := RootsOf(xs);
      roots := [];
      for i := 0 to |xs|
        invariant roots == FirstSeenOf(rs[..i])
      {
        FirstSeenSnoc(rs, i);
        var r := Root(xs[i]);
        if r !in roots {
          roots := roots + [r];
        }
      }
      assert rs[..|xs|] == rs;
      assert Parentless(parent, rs);
      ParentlessWithin(parent, rs, roots);
    }
  }
}
