/** `StixShifterDataFrame`: `flatten_sco`, which arranges the
    cyber-observable objects of one STIX observed-data object into trees by
    their `_ref`/`_refs` references and flattens them into a single row of
    named columns, and `add_config`, which keeps the connector
    configurations. */
module StixFlatten {
  import opened Wrappers
  import opened Text
  import opened Json
  import opened StixColumns
  import opened StixForest

  /** Why `flatten_sco` raises. */
  datatype FlattenError =
    | MissingKey(key: string)    // `obj[key]` on a dict without the key
    | NotADict                   // `.items()` or `[key]` on something that is not a dict
    | DanglingRef(ref: Value)    // `nodes[ref]` with no node under that id
    | NotIterable(attr: string)  // `enumerate` over a `_refs` value that is not iterable
    | LoopError                  // anytree refuses to move a node under its own subtree
    | FalsyType                  // a `type` attribute that is empty or otherwise false
    | TypeNotText                // a root whose `type` is not a string

  /** One element of the list `flatten_sco` returns: the object itself, or
      the one-row frame of flattened columns. */
  datatype Flat = PassThrough(obj: Value) | Frame(row: Row)

  /** The ids `enumerate(val)` yields for a `_refs` attribute: the items of
      a list, the characters of a string, the keys of a dict; anything else
      cannot be iterated. */
  function RefTargets(val: Value): (r: Option<seq<Value>>)
    ensures r.None? <==> !(val.List? || val.Str? || val.Dict?)
    ensures val.List? ==> r == Some(val.items)
    ensures val.Str? ==> r.Some? && |r.value| == |val.s| && forall i :: 0 <= i < |val.s| ==> r.value[i] == Str([val.s[i]])
    ensures val.Dict? ==> r.Some? && |r.value| == |val.entries| && forall i :: 0 <= i < |val.entries| ==> r.value[i] == Str(val.entries[i].0)
  {
    match val
    case List(items) => Some(items)
    case Str(s) => Some(seq(|s|, i requires 0 <= i < |s| => Str([s[i]])))
    case Dict(entries) => Some(seq(|entries|, i requires 0 <= i < |entries| => Str(entries[i].0)))
    case _ => None
  }

  /** The node an id value names, when it is a string that names one. */
  predicate Names(t: NodeTable, ref: Value)
    reads t
  {
    ref.Str? && ref.s in t.ids
  }

  /** The node table `flatten_sco` starts from: one node per object, named
      by its key, with no parent and no prefix. */
  function Initial(objs: seq<(string, Value)>): (f: Forest)
    ensures Shaped(f) && |f.fields| == |objs|
    ensures KeysNamed(objs, f.ids)
    decreases |objs|
  {
    if objs == [] then Forest([], [], [], [], map[], [])
    else Added(Initial(objs[..|objs| - 1]), objs[|objs| - 1].0, objs[|objs| - 1].1, None, None)
  }

  /** `nodes[k] = Node(k, fields=v)` for each object in turn. */
  method NewTable(objs: seq<(string, Value)>) returns (t: NodeTable)
    requires DistinctKeys(objs)
    ensures fresh(t)
    ensures t.Snap() == Initial(objs)
    ensures |t.fields| == |objs| == |t.parent| && |t.order| == |objs|
    ensures forall j :: 0 <= j < |objs| ==>
              t.order[j] == objs[j].0 && objs[j].0 in t.ids && t.ids[objs[j].0] == j
              && t.fields[j] == objs[j].1 && t.parent[j].None?
    ensures t.Valid()
  {
    t := new NodeTable();
    for i := 0 to |objs|
      invariant fresh(t)
      invariant t.Valid() && t.Snap() == Initial(objs[..i])
    {
      InitialSnoc(objs, i);
      var x := t.AddNode(objs[i].0, objs[i].1, None, None);
    }
    assert objs[..|objs|] == objs;
    InitialLoaded(objs);
  }

  lemma InitialSnoc(objs: seq<(string, Value)>, i: nat)
    requires i < |objs|
    ensures Initial(objs[..i + 1]) == Added(Initial(objs[..i]), objs[i].0, objs[i].1, None, None)
  {
    assert objs[..i + 1][..i] == objs[..i];
  }

  /** The first `n` objects are the first `n` nodes, each named by its key
      and without a parent. */
  ghost predicate Loaded(order: seq<string>, ids: map<string, nat>, fields: seq<Value>,
                         parent: seq<Option<nat>>, objs: seq<(string, Value)>, n: nat)
  {
    && |fields| == n == |parent| && |order| == n && n <= |objs|
    && forall j :: 0 <= j < n ==>
         order[j] == objs[j].0 && objs[j].0 in ids && ids[objs[j].0] == j
         && fields[j] == objs[j].1 && parent[j].None?
  }

  /** With distinct keys, the starting table holds every object in order,
      named by its key and without a parent, and names nothing else. */
  lemma {:induction false} InitialLoaded(objs: seq<(string, Value)>)
    requires DistinctKeys(objs)
    ensures Loaded(Initial(objs).order, Initial(objs).ids, Initial(objs).fields, Initial(objs).parent, objs, |objs|)
    ensures forall key :: key in Initial(objs).ids ==> key in Initial(objs).order
    decreases |objs|
  {
    if objs != [] {
      var n := |objs| - 1;
      var init := objs[..n];
      assert DistinctKeys(init) by {
        forall i, j | 0 <= i < j < |init|
          ensures init[i].0 != init[j].0
        {
          assert init[i] == objs[i] && init[j] == objs[j];
        }
      }
      InitialLoaded(init);
      var f := Initial(init);
      assert objs[n].0 !in f.ids;
      assert objs == init + [objs[n]];
      LoadedStep(f.order, f.ids, f.fields, f.parent, objs, n);
    }
  }

  lemma LoadedStep(order: seq<string>, ids: map<string, nat>, fields: seq<Value>,
                   parent: seq<Option<nat>>, objs: seq<(string, Value)>, i: nat)
    requires i < |objs| && DistinctKeys(objs) && Loaded(order, ids, fields, parent, objs[..i], i)
    ensures Loaded(order + [objs[i].0], ids[objs[i].0 := i], fields + [objs[i].1], parent + [None], objs, i + 1)
  {
    forall j | 0 <= j < i
      ensures objs[j].0 != objs[i].0 && objs[..i][j] == objs[j]
    {
    }
  }

  /** `nodes[ref].parent = nodes[k]` then `nodes[ref].prefix = pfx`, with
      `p` the node of `k`: the prefix is only set once the move succeeded. */
  method Adopt(t: NodeTable, p: nat, ref: Value, pfx: string) returns (err: Option<FlattenError>)
    requires t.Valid() && p < |t.fields|
    modifies t
    ensures t.fields == old(t.fields) && t.ids == old(t.ids) && t.order == old(t.order)
    ensures !old(Names(t, ref)) ==> err == Some(DanglingRef(ref)) && t.parent == old(t.parent) && t.prefix == old(t.prefix)
    ensures old(Names(t, ref)) ==>
              && (err.None? <==> !old(t.AncestorOrSelf(t.ids[ref.s], p)))
              && (err.Some? ==> err == Some(LoopError) && t.parent == old(t.parent) && t.prefix == old(t.prefix))
              && (err.None? ==>
                    t.parent == old(t.parent)[old(t.ids)[ref.s] := Some(p)]
                    && t.prefix == old(t.prefix)[old(t.ids)[ref.s] := Some(pfx)])
    ensures t.Valid()
    ensures err.None? ==> t.Snap() == Prefixed(Moved(old(t.Snap()), old(t.ids[ref.s]), p), old(t.ids[ref.s]), pfx)
    ensures err.Some? ==> t.Snap() == old(t.Snap())
    ensures err == MoveError(old(t.Snap()), p, ref)
  {
    if !Names(t, ref) {
      return Some(DanglingRef(ref));
    }
    var target := t.ids[ref.s];
    BelowReaches(t.parent, t.rank, t.bound, p, target);
    var ok := t.SetParent(target, p);
    if !ok {
      return Some(LoopError);
    }
    t.SetPrefix(target, pfx);
    err := None;
  }

  /** One `_ref` attribute of object `k`: a target that already has a parent
      is cloned under `k` with the id `str(len(nodes))`, which may rebind an
      existing id; otherwise the target itself moves under `k`. */
  method RefAttr(t: NodeTable, k: string, attr: string, val: Value) returns (err: Option<FlattenError>)
    requires t.Valid() && k in t.ids
    modifies t
    ensures !old(Names(t, val)) ==> err == Some(DanglingRef(val)) && t.parent == old(t.parent) && t.prefix == old(t.prefix)
    ensures old(Names(t, val)) && old(t.parent[t.ids[val.s]]).Some? ==>
              && err.None?
              && t.fields == old(t.fields) + [old(t.fields[t.ids[val.s]])]
              && t.parent == old(t.parent) + [Some(old(t.ids[k]))]
              && t.prefix == old(t.prefix) + [Some(attr)]
              && t.ids == old(t.ids)[NatToString(old(|t.order|)) := old(|t.fields|)]
    ensures old(Names(t, val)) && old(t.parent[t.ids[val.s]]).None? ==>
              && (err.None? <==> !old(t.AncestorOrSelf(t.ids[val.s], t.ids[k])))
              && (err.Some? ==> err == Some(LoopError) && t.parent == old(t.parent) && t.prefix == old(t.prefix))
              && (err.None? ==>
                    t.parent == old(t.parent)[old(t.ids)[val.s] := Some(old(t.ids)[k])]
                    && t.prefix == old(t.prefix)[old(t.ids)[val.s] := Some(attr)])
              && t.fields == old(t.fields) && t.ids == old(t.ids)
    ensures forall key :: key in old(t.ids) ==> key in t.ids
    ensures t.Valid()
    ensures err.None? ==> t.Snap() == RefArranged(old(t.Snap()), k, attr, val)
    ensures err.Some? ==> t.Snap() == old(t.Snap())
    ensures err == RefError(old(t.Snap()), k, val)
  {
    if !Names(t, val) {
      return Some(DanglingRef(val));
    }
    var target := t.ids[val.s];
    var p := t.ids[k];
    if t.parent[target].Some? {
      var nid := NatToString(|t.order|);
      var x := t.AddNode(nid, t.fields[target], Some(p), Some(attr));
      return None;
    }
    err := Adopt(t, p, val, attr);
  }

  /** The prefix of the `i`-th target of a `_refs` attribute. */
  function Indexed(attr: string, i: nat): string {
    attr + "[" + NatToString(i) + "]"
  }

  /** One `_ref` attribute of object `k`, on the value, when it is
      accepted: a target with a parent is cloned under `k` with the id
      `str(len(nodes))`, any other target moves under `k`. */
  function RefArranged(f: Forest, k: string, attr: string, val: Value): (g: Forest)
    requires Shaped(f)
    ensures Shaped(g) && |g.fields| >= |f.fields| && forall key :: key in f.ids ==> key in g.ids
  {
    if !(val.Str? && val.s in f.ids && k in f.ids) then f
    else
      var x, p := f.ids[val.s], f.ids[k];
      if f.parent[x].Some? then Added(f, NatToString(|f.order|), f.fields[x], Some(p), Some(attr))
      else Prefixed(Moved(f, x, p), x, attr)
  }

  /** The targets `refs` of a `_refs` attribute moved under `p` one after
      the other, each with the prefix of its position, on the value. */
  function RefsArranged(f: Forest, p: nat, attr: string, refs: seq<Value>): (g: Forest)
    requires Shaped(f) && p < |f.fields|
    ensures Shaped(g) && g.fields == f.fields && g.ids == f.ids && g.order == f.order
    decreases |refs|
  {
    if refs == [] then f
    else
      var g := RefsArranged(f, p, attr, refs[..|refs| - 1]);
      var ref := refs[|refs| - 1];
      if ref.Str? && ref.s in g.ids then Prefixed(Moved(g, g.ids[ref.s], p), g.ids[ref.s], Indexed(attr, |refs| - 1))
      else g
  }

  /** One attribute of object `k`, on the value: a `_ref` or a `_refs`
      attribute rearranges the forest, any other leaves it alone. */
  function AttrArranged(f: Forest, k: string, attr: string, val: Value): (g: Forest)
    requires Shaped(f)
    ensures Shaped(g) && |g.fields| >= |f.fields| && forall key :: key in f.ids ==> key in g.ids
  {
    if EndsWith(attr, "_ref") then RefArranged(f, k, attr, val)
    else if EndsWith(attr, "_refs") && k in f.ids && RefTargets(val).Some? then
      RefsArranged(f, f.ids[k], attr, RefTargets(val).value)
    else f
  }

  /** The attributes of object `k`, in order, on the value. */
  function ObjectArranged(f: Forest, k: string, attrs: seq<(string, Value)>): (g: Forest)
    requires Shaped(f)
    ensures Shaped(g) && |g.fields| >= |f.fields| && forall key :: key in f.ids ==> key in g.ids
    decreases |attrs|
  {
    if attrs == [] then f
    else AttrArranged(ObjectArranged(f, k, attrs[..|attrs| - 1]), k, attrs[|attrs| - 1].0, attrs[|attrs| - 1].1)
  }

  /** The forest the objects arrange into, object by object, when every
      reference is accepted. */
  function Arranged(f: Forest, objs: seq<(string, Value)>): (g: Forest)
    requires Shaped(f)
    ensures Shaped(g) && |g.fields| >= |f.fields| && forall key :: key in f.ids ==> key in g.ids
    decreases |objs|
  {
    if objs == [] then f
    else
      var g := Arranged(f, objs[..|objs| - 1]);
      var (k, v) := objs[|objs| - 1];
      if v.Dict? then ObjectArranged(g, k, v.entries) else g
  }

  /** The error of moving the target `ref` under node `p`: an id that names
      no node, or a node that is `p` or one of its ancestors. */
  ghost function MoveError(f: Forest, p: nat, ref: Value): Option<FlattenError>
    requires Shaped(f) && p < |f.fields|
  {
    if !(ref.Str? && ref.s in f.ids) then Some(DanglingRef(ref))
    else if Reaches(f.parent, p, f.ids[ref.s]) then Some(LoopError)
    else None
  }

  /** The error a `_ref` attribute of object `k` raises: a target with a
      parent is cloned, which never fails; any other moves under `k`. */
  ghost function RefError(f: Forest, k: string, val: Value): Option<FlattenError>
    requires Shaped(f) && k in f.ids
  {
    if val.Str? && val.s in f.ids && f.parent[f.ids[val.s]].Some? then None
    else MoveError(f, f.ids[k], val)
  }

  /** The error the moves of a `_refs` attribute raise: the first move
      refused, each read off the forest the moves before it left. */
  ghost function RefsError(f: Forest, p: nat, attr: string, refs: seq<Value>): Option<FlattenError>
    requires Shaped(f) && p < |f.fields|
    decreases |refs|
  {
    if refs == [] then None
    else
      var e := RefsError(f, p, attr, refs[..|refs| - 1]);
      if e.Some? then e
      else MoveError(RefsArranged(f, p, attr, refs[..|refs| - 1]), p, refs[|refs| - 1])
  }

  /** The error the reference part of one attribute raises: a `_refs`
      value that cannot be iterated, or a refused reference. */
  ghost function AttrError(f: Forest, k: string, attr: string, val: Value): Option<FlattenError>
    requires Shaped(f) && k in f.ids
  {
    if EndsWith(attr, "_ref") then RefError(f, k, val)
    else if EndsWith(attr, "_refs") then
      (match RefTargets(val)
       case None => Some(NotIterable(attr))
       case Some(refs) => RefsError(f, f.ids[k], attr, refs))
    else None
  }

  /** The error one attribute raises: its reference part first, then a
      `type` attribute that is not true. */
  ghost function EntryError(f: Forest, k: string, attr: string, val: Value): Option<FlattenError>
    requires Shaped(f) && k in f.ids
  {
    var e := AttrError(f, k, attr, val);
    if e.None? && attr == "type" && !Truthy(val) then Some(FalsyType) else e
  }

  /** The first error the attributes of object `k` raise, in order, each on
      the forest the attributes before it left. */
  ghost function EntriesError(f: Forest, k: string, attrs: seq<(string, Value)>): Option<FlattenError>
    requires Shaped(f) && k in f.ids
    decreases |attrs|
  {
    if attrs == [] then None
    else
      var e := EntriesError(f, k, attrs[..|attrs| - 1]);
      if e.Some? then e
      else EntryError(ObjectArranged(f, k, attrs[..|attrs| - 1]), k, attrs[|attrs| - 1].0, attrs[|attrs| - 1].1)
  }

  /** The error object `k` raises: `.items()` on a value that is not a
      dict, else the first error of its attributes. */
  ghost function ObjectError(f: Forest, k: string, v: Value): Option<FlattenError>
    requires Shaped(f) && k in f.ids
  {
    if !v.Dict? then Some(NotADict) else EntriesError(f, k, v.entries)
  }

  /** The first error the objects raise, in order, each on the forest the
      objects before it left: `None` exactly when the arrangement succeeds. */
  ghost function ArrangeError(f: Forest, objs: seq<(string, Value)>): Option<FlattenError>
    requires Shaped(f) && KeysNamed(objs, f.ids)
    decreases |objs|
  {
    if objs == [] then None
    else
      var init := objs[..|objs| - 1];
      assert KeysNamed(init, f.ids) by {
        assert forall j :: 0 <= j < |init| ==> init[j] == objs[j];
      }
      var e := ArrangeError(f, init);
      if e.Some? then e
      else ObjectError(Arranged(f, init), objs[|objs| - 1].0, objs[|objs| - 1].1)
  }

  lemma RefsErrorStep(f: Forest, p: nat, attr: string, refs: seq<Value>, i: nat, g: Forest)
    requires Shaped(f) && p < |f.fields| && i < |refs|
    requires RefsError(f, p, attr, refs[..i]).None? && g == RefsArranged(f, p, attr, refs[..i])
    ensures RefsError(f, p, attr, refs[..i + 1]) == MoveError(g, p, refs[i])
  {
    assert refs[..i + 1][..i] == refs[..i];
  }

  /** A move refused among the first `n` targets is the error of the whole
      attribute. */
  lemma {:induction false} RefsErrorStays(f: Forest, p: nat, attr: string, refs: seq<Value>, n: nat)
    requires Shaped(f) && p < |f.fields| && n <= |refs| && RefsError(f, p, attr, refs[..n]).Some?
    ensures RefsError(f, p, attr, refs) == RefsError(f, p, attr, refs[..n])
    decreases |refs|
  {
    if n < |refs| {
      var init := refs[..|refs| - 1];
      assert init[..n] == refs[..n];
      RefsErrorStays(f, p, attr, init, n);
    } else {
      assert refs[..n] == refs;
    }
  }

  lemma EntriesErrorStep(f: Forest, k: string, attrs: seq<(string, Value)>, i: nat, g: Forest)
    requires Shaped(f) && k in f.ids && i < |attrs|
    requires EntriesError(f, k, attrs[..i]).None? && g == ObjectArranged(f, k, attrs[..i])
    ensures EntriesError(f, k, attrs[..i + 1]) == EntryError(g, k, attrs[i].0, attrs[i].1)
  {
    assert attrs[..i + 1][..i] == attrs[..i];
  }

  /** An error among the first `n` attributes is the error of the object. */
  lemma {:induction false} EntriesErrorStays(f: Forest, k: string, attrs: seq<(string, Value)>, n: nat)
    requires Shaped(f) && k in f.ids && n <= |attrs| && EntriesError(f, k, attrs[..n]).Some?
    ensures EntriesError(f, k, attrs) == EntriesError(f, k, attrs[..n])
    decreases |attrs|
  {
    if n < |attrs| {
      var init := attrs[..|attrs| - 1];
      assert init[..n] == attrs[..n];
      EntriesErrorStays(f, k, init, n);
    } else {
      assert attrs[..n] == attrs;
    }
  }

  lemma ArrangeErrorStep(f: Forest, objs: seq<(string, Value)>, i: nat, g: Forest)
    requires Shaped(f) && KeysNamed(objs, f.ids) && i < |objs|
    requires KeysNamed(objs[..i], f.ids) && ArrangeError(f, objs[..i]).None? && g == Arranged(f, objs[..i])
    ensures KeysNamed(objs[..i + 1], f.ids) && objs[i].0 in g.ids
    ensures ArrangeError(f, objs[..i + 1]) == ObjectError(g, objs[i].0, objs[i].1)
  {
    assert objs[..i + 1][..i] == objs[..i];
  }

  /** An error among the first `n` objects is the error of the whole
      arrangement. */
  lemma {:induction false} ArrangeErrorStays(f: Forest, objs: seq<(string, Value)>, n: nat)
    requires Shaped(f) && KeysNamed(objs, f.ids) && n <= |objs|
    requires KeysNamed(objs[..n], f.ids) && ArrangeError(f, objs[..n]).Some?
    ensures ArrangeError(f, objs) == ArrangeError(f, objs[..n])
    decreases |objs|
  {
    if n < |objs| {
      var init := objs[..|objs| - 1];
      assert init[..n] == objs[..n];
      assert KeysNamed(init, f.ids) by {
        assert forall j :: 0 <= j < |init| ==> init[j] == objs[j];
      }
      ArrangeErrorStays(f, init, n);
    } else {
      assert objs[..n] == objs;
    }
  }

  /** The forest a `_refs` attribute leaves, whether or not a move is
      refused: the moves before the first refused one. */
  ghost function RefsLeft(f: Forest, p: nat, attr: string, refs: seq<Value>): Forest
    requires Shaped(f) && p < |f.fields|
    decreases |refs|
  {
    if refs == [] then f
    else
      var init := refs[..|refs| - 1];
      if RefsError(f, p, attr, init).Some? then RefsLeft(f, p, attr, init)
      else if MoveError(RefsArranged(f, p, attr, init), p, refs[|refs| - 1]).Some? then RefsArranged(f, p, attr, init)
      else RefsArranged(f, p, attr, refs)
  }

  /** The forest one attribute leaves, whether or not it raises: a refused
      `_ref` and a `_refs` value that cannot be iterated leave it as it was,
      a `_refs` attribute leaves the moves made before the refused one, and
      any other attribute never changes it. */
  ghost function AttrLeft(f: Forest, k: string, attr: string, val: Value): Forest
    requires Shaped(f) && k in f.ids
  {
    if EndsWith(attr, "_ref") then (if RefError(f, k, val).None? then RefArranged(f, k, attr, val) else f)
    else if EndsWith(attr, "_refs") then
      (match RefTargets(val)
       case None => f
       case Some(refs) => RefsLeft(f, f.ids[k], attr, refs))
    else f
  }

  /** The move of target `n` refused: that is the attribute's error, and
      the forest keeps the moves before it. */
  lemma RefsStopped(f: Forest, p: nat, attr: string, refs: seq<Value>, n: nat, g: Forest)
    requires Shaped(f) && p < |f.fields| && n < |refs|
    requires RefsError(f, p, attr, refs[..n]).None? && g == RefsArranged(f, p, attr, refs[..n])
    requires MoveError(g, p, refs[n]).Some?
    ensures RefsError(f, p, attr, refs) == MoveError(g, p, refs[n])
    ensures RefsLeft(f, p, attr, refs) == g
  {
    RefsErrorStep(f, p, attr, refs, n, g);
    RefsErrorStays(f, p, attr, refs, n + 1);
    RefsLeftStays(f, p, attr, refs, n, g);
  }

  /** Without a refused move, a `_refs` attribute leaves all its moves. */
  lemma RefsLeftArranged(f: Forest, p: nat, attr: string, refs: seq<Value>)
    requires Shaped(f) && p < |f.fields| && RefsError(f, p, attr, refs).None?
    ensures RefsLeft(f, p, attr, refs) == RefsArranged(f, p, attr, refs)
  {
  }

  /** With the move of target `n` refused, a `_refs` attribute leaves the
      moves of the `n` targets before it, whatever follows. */
  lemma {:induction false} RefsLeftStays(f: Forest, p: nat, attr: string, refs: seq<Value>, n: nat, g: Forest)
    requires Shaped(f) && p < |f.fields| && n < |refs|
    requires RefsError(f, p, attr, refs[..n]).None? && g == RefsArranged(f, p, attr, refs[..n])
    requires MoveError(g, p, refs[n]).Some?
    ensures RefsLeft(f, p, attr, refs) == g
    decreases |refs|
  {
    var init := refs[..|refs| - 1];
    if n + 1 == |refs| {
      assert init == refs[..n];
    } else {
      assert init[..n] == refs[..n] && init[n] == refs[n];
      RefsErrorStep(f, p, attr, init, n, g);
      assert init[..n + 1] == refs[..n + 1];
      RefsErrorStays(f, p, attr, init, n + 1);
      RefsLeftStays(f, p, attr, init, n, g);
    }
  }

  /** Every id in `refs` names a node. */
  ghost predicate AllNamed(ids: map<string, nat>, refs: seq<Value>) {
    forall j :: 0 <= j < |refs| ==> refs[j].Str? && refs[j].s in ids
  }

  /** The nodes the ids in `refs` name. */
  ghost function Resolve(ids: map<string, nat>, refs: seq<Value>): (xs: seq<nat>)
    requires AllNamed(ids, refs)
    ensures |xs| == |refs|
  {
    seq(|refs|, j requires 0 <= j < |refs| && refs[j].Str? && refs[j].s in ids => ids[refs[j].s])
  }

  lemma ResolveSnoc(ids: map<string, nat>, refs: seq<Value>, i: nat)
    requires i < |refs| && AllNamed(ids, refs[..i]) && refs[i].Str? && refs[i].s in ids
    ensures AllNamed(ids, refs[..i + 1])
    ensures Resolve(ids, refs[..i + 1]) == Resolve(ids, refs[..i]) + [ids[refs[i].s]]
  {
    assert forall j :: 0 <= j < i ==> refs[..i + 1][j] == refs[..i][j];
  }

  /** Position `j` of `xs` is the last one holding its node. */
  ghost predicate LastOf(xs: seq<nat>, j: nat)
    requires j < |xs|
  {
    forall m :: j < m < |xs| ==> xs[m] != xs[j]
  }

  /** The nodes `xs` are children of `p`. */
  ghost predicate ParentsAre(parent: seq<Option<nat>>, xs: seq<nat>, p: nat) {
    forall j :: 0 <= j < |xs| ==> xs[j] < |parent| && parent[xs[j]] == Some(p)
  }

  /** Each node of `xs` has the prefix `attr[j]` of its last position `j`. */
  ghost predicate PrefixesAre(prefix: seq<Option<string>>, xs: seq<nat>, attr: string) {
    forall j :: 0 <= j < |xs| && LastOf(xs, j) ==> xs[j] < |prefix| && prefix[xs[j]] == Some(Indexed(attr, j))
  }

  /** Every node outside `xs` keeps its parent and prefix. */
  ghost predicate OthersKept(parent: seq<Option<nat>>, prefix: seq<Option<string>>,
                             parent0: seq<Option<nat>>, prefix0: seq<Option<string>>, xs: seq<nat>) {
    && |parent| == |prefix| == |parent0| == |prefix0|
    && forall x :: 0 <= x < |parent| && x !in xs ==> parent[x] == parent0[x] && prefix[x] == prefix0[x]
  }

  /** The effect of a `_refs` attribute on the parents and prefixes: the
      nodes `xs` are children of `p`, each with the prefix `attr[j]` of its
      last position `j`, and every other node keeps its parent and prefix. */
  ghost predicate Reparented(parent: seq<Option<nat>>, prefix: seq<Option<string>>,
                             parent0: seq<Option<nat>>, prefix0: seq<Option<string>>,
                             xs: seq<nat>, p: nat, attr: string)
  {
    ParentsAre(parent, xs, p) && PrefixesAre(prefix, xs, attr) && OthersKept(parent, prefix, parent0, prefix0, xs)
  }

  lemma ParentsStep(parent: seq<Option<nat>>, xs: seq<nat>, p: nat, x: nat)
    requires ParentsAre(parent, xs, p) && x < |parent|
    ensures ParentsAre(parent[x := Some(p)], xs + [x], p)
  {
    assert forall j :: 0 <= j < |xs| ==> (xs + [x])[j] == xs[j];
  }

  lemma PrefixesStep(prefix: seq<Option<string>>, xs: seq<nat>, attr: string, x: nat)
    requires PrefixesAre(prefix, xs, attr) && x < |prefix|
    ensures PrefixesAre(prefix[x := Some(Indexed(attr, |xs|))], xs + [x], attr)
  {
    var ys := xs + [x];
    forall j | 0 <= j < |ys| && LastOf(ys, j)
      ensures ys[j] < |prefix| && prefix[x := Some(Indexed(attr, |xs|))][ys[j]] == Some(Indexed(attr, j))
    {
      if j < |xs| {
        assert ys[|xs|] == x;
        assert forall m :: j < m < |xs| ==> ys[m] == xs[m];
        assert LastOf(xs, j);
      }
    }
  }

  lemma OthersStep(parent: seq<Option<nat>>, prefix: seq<Option<string>>,
                   parent0: seq<Option<nat>>, prefix0: seq<Option<string>>, xs: seq<nat>,
                   x: nat, a: Option<nat>, b: Option<string>)
    requires OthersKept(parent, prefix, parent0, prefix0, xs) && x < |parent|
    ensures OthersKept(parent[x := a], prefix[x := b], parent0, prefix0, xs + [x])
  {
  }

  /** Moving one more target keeps the description true. */
  lemma ReparentStep(parent: seq<Option<nat>>, prefix: seq<Option<string>>,
                     parent0: seq<Option<nat>>, prefix0: seq<Option<string>>,
                     xs: seq<nat>, p: nat, attr: string, x: nat)
    requires Reparented(parent, prefix, parent0, prefix0, xs, p, attr) && x < |parent|
    ensures Reparented(parent[x := Some(p)], prefix[x := Some(Indexed(attr, |xs|))], parent0, prefix0, xs + [x], p, attr)
  {
    ParentsStep(parent, xs, p, x);
    PrefixesStep(prefix, xs, attr, x);
    OthersStep(parent, prefix, parent0, prefix0, xs, x, Some(p), Some(Indexed(attr, |xs|)));
  }

  /** Every target in `refs` names a node, and none is node `p` or one of
      its ancestors: anytree accepts every move. */
  ghost predicate Clear(parent: seq<Option<nat>>, rank: seq<nat>, bound: nat, ids: map<string, nat>,
                        p: nat, refs: seq<Value>)
    requires Ranked(parent, rank, bound) && p < |parent|
  {
    forall j :: 0 <= j < |refs| ==> refs[j].Str? && refs[j].s in ids && !Below(parent, rank, bound, p, ids[refs[j].s])
  }

  /** The `i`-th target is the first one refused, with error `e`: an id
      that names no node, or a node that is `p` or one of its ancestors. */
  ghost predicate FailsAt(parent: seq<Option<nat>>, rank: seq<nat>, bound: nat, ids: map<string, nat>,
                          p: nat, refs: seq<Value>, i: nat, e: FlattenError)
    requires Ranked(parent, rank, bound) && p < |parent|
  {
    && i < |refs| && Clear(parent, rank, bound, ids, p, refs[..i])
    && if refs[i].Str? && refs[i].s in ids then Below(parent, rank, bound, p, ids[refs[i].s]) && e == LoopError
       else e == DanglingRef(refs[i])
  }

  lemma ClearSnoc(parent: seq<Option<nat>>, rank: seq<nat>, bound: nat, ids: map<string, nat>,
                  p: nat, refs: seq<Value>, i: nat)
    requires Ranked(parent, rank, bound) && p < |parent| && i < |refs|
    requires Clear(parent, rank, bound, ids, p, refs[..i])
    requires refs[i].Str? && refs[i].s in ids && !Below(parent, rank, bound, p, ids[refs[i].s])
    ensures Clear(parent, rank, bound, ids, p, refs[..i + 1])
  {
    assert forall j :: 0 <= j < i ==> refs[..i + 1][j] == refs[..i][j];
  }

  /** A refused target makes the whole list refused. */
  lemma FailsNotClear(parent: seq<Option<nat>>, rank: seq<nat>, bound: nat, ids: map<string, nat>,
                      p: nat, refs: seq<Value>, i: nat, e: FlattenError)
    requires Ranked(parent, rank, bound) && p < |parent|
    requires FailsAt(parent, rank, bound, ids, p, refs, i, e)
    ensures !Clear(parent, rank, bound, ids, p, refs)
  {
  }

  lemma RefsArrangedSnoc(f: Forest, p: nat, attr: string, refs: seq<Value>, i: nat)
    requires Shaped(f) && p < |f.fields| && i < |refs|
    ensures RefsArranged(f, p, attr, refs[..i + 1]) ==
              var g := RefsArranged(f, p, attr, refs[..i]);
              if refs[i].Str? && refs[i].s in g.ids
              then Prefixed(Moved(g, g.ids[refs[i].s], p), g.ids[refs[i].s], Indexed(attr, i))
              else g
  {
    assert refs[..i + 1][..i] == refs[..i];
  }

  /** The loop of a `_refs` attribute: every target in `refs` moves under
      node `p`, whether it had a parent or not, and takes the prefix
      `attr[i]` of its last position in the list.  The moves stop at the
      first target that names no node or that is `p` or one of its
      ancestors; a move never changes the ancestors of `p`, so which target
      that is can be read off the table as it was before the loop. */
  method MoveTargets(t: NodeTable, p: nat, attr: string, refs: seq<Value>) returns (err: Option<FlattenError>, ghost done: nat)
    requires t.Valid() && p < |t.fields|
    modifies t
    ensures t.fields == old(t.fields) && t.ids == old(t.ids) && t.order == old(t.order)
    ensures t.Valid()
    ensures err.None? ==>
              AllNamed(t.ids, refs) && Reparented(t.parent, t.prefix, old(t.parent), old(t.prefix), Resolve(t.ids, refs), p, attr)
    ensures err.None? <==> Clear(old(t.parent), old(t.rank), old(t.bound), old(t.ids), p, refs)
    ensures err.None? ==> t.Snap() == RefsArranged(old(t.Snap()), p, attr, refs)
    ensures err.Some? ==>
              && FailsAt(old(t.parent), old(t.rank), old(t.bound), old(t.ids), p, refs, done, err.value)
              && t.Snap() == RefsArranged(old(t.Snap()), p, attr, refs[..done])
    ensures err == RefsError(old(t.Snap()), p, attr, refs)
    ensures t.Snap() == RefsLeft(old(t.Snap()), p, attr, refs)
  {
    ghost var xs: seq<nat> := [];
    ghost var parent0, rank0, bound0 := t.parent, t.rank, t.bound;
    ghost var s0 := t.Snap();
    for i := 0 to |refs|
      invariant t.fields == old(t.fields) && t.ids == old(t.ids) && t.order == old(t.order) && t.Valid()
      invariant AllNamed(t.ids, refs[..i]) && xs == Resolve(t.ids, refs[..i])
      invariant Reparented(t.parent, t.prefix, old(t.parent), old(t.prefix), xs, p, attr)
      invariant forall c :: Below(t.parent, t.rank, t.bound, p, c) == Below(parent0, rank0, bound0, p, c)
      invariant Clear(parent0, rank0, bound0, t.ids, p, refs[..i])
      invariant t.Snap() == RefsArranged(s0, p, attr, refs[..i])
      invariant RefsError(s0, p, attr, refs[..i]).None?
    {
      var ref := refs[i];
      if Names(t, ref) {
        ReparentStep(t.parent, t.prefix, old(t.parent), old(t.prefix), xs, p, attr, t.ids[ref.s]);
      }
      ghost var g := t.Snap();
      RefsErrorStep(s0, p, attr, refs, i, g);
      ghost var parent1, rank1, bound1 := t.parent, t.rank, t.bound;
      err := Adopt(t, p, ref, Indexed(attr, i));
      if err.Some? {
        done := i;
        assert FailsAt(parent0, rank0, bound0, t.ids, p, refs, i, err.value);
        FailsNotClear(parent0, rank0, bound0, t.ids, p, refs, i, err.value);
        RefsStopped(s0, p, attr, refs, i, g);
        return;
      }
      var x := t.ids[ref.s];
      forall c
        ensures Below(t.parent, t.rank, t.bound, p, c) == Below(parent0, rank0, bound0, p, c)
      {
        BelowMoved(parent1, rank1, bound1, t.rank, t.bound, x, p, p, c);
      }
      RefsArrangedSnoc(s0, p, attr, refs, i);
      ClearSnoc(parent0, rank0, bound0, t.ids, p, refs, i);
      ResolveSnoc(t.ids, refs, i);
      xs := xs + [x];
    }
    assert refs[..|refs|] == refs;
    assert RefsError(s0, p, attr, refs).None?;
    RefsLeftArranged(s0, p, attr, refs);
    err, done := None, |refs|;
  }

  /** One `_refs` attribute of object `k`: a value `enumerate` cannot
      iterate is refused; the targets it yields move under `k`. */
  method RefsAttr(t: NodeTable, k: string, attr: string, val: Value) returns (err: Option<FlattenError>, ghost done: nat)
    requires t.Valid() && k in t.ids
    modifies t
    ensures t.fields == old(t.fields) && t.ids == old(t.ids) && t.order == old(t.order)
    ensures RefTargets(val).None? ==> err == Some(NotIterable(attr))
    ensures err.None? ==>
              && RefTargets(val).Some? && AllNamed(t.ids, RefTargets(val).value)
              && Reparented(t.parent, t.prefix, old(t.parent), old(t.prefix), Resolve(t.ids, RefTargets(val).value), old(t.ids)[k], attr)
    ensures t.Valid()
    ensures RefTargets(val).Some? ==>
              (err.None? <==> Clear(old(t.parent), old(t.rank), old(t.bound), old(t.ids), old(t.ids[k]), RefTargets(val).value))
    ensures RefTargets(val).Some? && err.Some? ==>
              exists i: nat :: FailsAt(old(t.parent), old(t.rank), old(t.bound), old(t.ids), old(t.ids[k]), RefTargets(val).value, i, err.value)
    ensures err.None? ==> t.Snap() == RefsArranged(old(t.Snap()), old(t.ids[k]), attr, RefTargets(val).value)
    ensures RefTargets(val).None? ==> t.Snap() == old(t.Snap())
    ensures RefTargets(val).Some? && err.Some? ==>
              && FailsAt(old(t.parent), old(t.rank), old(t.bound), old(t.ids), old(t.ids[k]), RefTargets(val).value, done, err.value)
              && t.Snap() == RefsArranged(old(t.Snap()), old(t.ids[k]), attr, RefTargets(val).value[..done])
    ensures RefTargets(val).Some? ==> err == RefsError(old(t.Snap()), old(t.ids[k]), attr, RefTargets(val).value)
    ensures RefTargets(val).Some? ==> t.Snap() == RefsLeft(old(t.Snap()), old(t.ids[k]), attr, RefTargets(val).value)
  {
    var targets := RefTargets(val);
    if targets.None? {
      return Some(NotIterable(attr)), 0;
    }
    err, done := MoveTargets(t, t.ids[k], attr, targets.value);
  }

  /** The reference part of one attribute of object `k`: a `_ref`
      attribute, else a `_refs` attribute; any other is left alone. */
  method ArrangeAttr(t: NodeTable, k: string, attr: string, val: Value) returns (err: Option<FlattenError>)
    requires t.Valid() && k in t.ids
    modifies t
    ensures old(t.ids).Keys <= t.ids.Keys
    ensures t.Valid()
    ensures err.None? ==> t.Snap() == AttrArranged(old(t.Snap()), k, attr, val)
    ensures !EndsWith(attr, "_ref") && !EndsWith(attr, "_refs") ==> err.None?
    ensures err == AttrError(old(t.Snap()), k, attr, val)
    ensures t.Snap() == AttrLeft(old(t.Snap()), k, attr, val)
  {
    if EndsWith(attr, "_ref") {
      err := RefAttr(t, k, attr, val);
    } else if EndsWith(attr, "_refs") {
      ghost var done;
      err, done := RefsAttr(t, k, attr, val);
    } else {
      err := None;
    }
  }

  /** One attribute of object `k`: its reference part, then the check that
      a `type` attribute is not empty. */
  method ArrangeEntry(t: NodeTable, k: string, attr: string, val: Value) returns (err: Option<FlattenError>)
    requires t.Valid() && k in t.ids
    modifies t
    ensures old(t.ids).Keys <= t.ids.Keys
    ensures t.Valid()
    ensures err.None? ==> t.Snap() == AttrArranged(old(t.Snap()), k, attr, val)
    ensures err.None? ==> attr == "type" ==> Truthy(val)
    ensures !EndsWith(attr, "_ref") && !EndsWith(attr, "_refs") ==> (err.None? <==> attr != "type" || Truthy(val))
    ensures err == EntryError(old(t.Snap()), k, attr, val)
    ensures t.Snap() == AttrLeft(old(t.Snap()), k, attr, val)
  {
    err := ArrangeAttr(t, k, attr, val);
    if err.None? && attr == "type" && !Truthy(val) {
      err := Some(FalsyType);
    }
  }

  /** Every `type` attribute of an object holds a true value. */
  ghost predicate TypesTruthy(v: Value)
    requires v.Dict?
  {
    TypedUpTo(v.entries, |v.entries|)
  }

  lemma TypedStep(entries: seq<(string, Value)>, i: nat)
    requires i < |entries| && TypedUpTo(entries, i)
    requires entries[i].0 == "type" ==> Truthy(entries[i].1)
    ensures TypedUpTo(entries, i + 1)
  {
  }

  /** Every `type` attribute among the first `n` holds a true value. */
  ghost predicate TypedUpTo(entries: seq<(string, Value)>, n: nat)
    requires n <= |entries|
  {
    forall i :: 0 <= i < n && entries[i].0 == "type" ==> Truthy(entries[i].1)
  }

  /** The attributes of object `k`, in order: its references, then the check
      that a `type` attribute is not empty. */
  method ArrangeObject(t: NodeTable, k: string, v: Value) returns (err: Option<FlattenError>)
    requires t.Valid() && k in t.ids
    modifies t
    ensures !v.Dict? ==> err == Some(NotADict)
    ensures err.None? ==> v.Dict? && TypesTruthy(v)
    ensures old(t.ids).Keys <= t.ids.Keys
    ensures t.Valid()
    ensures err.None? ==> t.Snap() == ObjectArranged(old(t.Snap()), k, v.entries)
    ensures err == ObjectError(old(t.Snap()), k, v)
  {
    if !v.Dict? {
      return Some(NotADict);
    }
    ghost var s0, ids0 := t.Snap(), t.ids;
    for i := 0 to |v.entries|
      invariant t.Valid() && TypedUpTo(v.entries, i) && ids0.Keys <= t.ids.Keys
      invariant t.Snap() == ObjectArranged(s0, k, v.entries[..i])
      invariant EntriesError(s0, k, v.entries[..i]).None?
    {
      ghost var g := t.Snap();
      EntriesErrorStep(s0, k, v.entries, i, g);
      err := ArrangeEntry(t, k, v.entries[i].0, v.entries[i].1);
      if err.Some? {
        EntriesErrorStays(s0, k, v.entries, i + 1);
        assert err == EntriesError(s0, k, v.entries);
        return;
      }
      ObjectArrangedStep(s0, k, v.entries, i, g, t.Snap());
      TypedStep(v.entries, i);
    }
    assert v.entries[..|v.entries|] == v.entries;
    assert EntriesError(s0, k, v.entries).None?;
    err := None;
  }

  lemma ObjectArrangedStep(f: Forest, k: string, attrs: seq<(string, Value)>, i: nat, g: Forest, h: Forest)
    requires Shaped(f) && i < |attrs| && g == ObjectArranged(f, k, attrs[..i])
    requires h == AttrArranged(g, k, attrs[i].0, attrs[i].1)
    ensures h == ObjectArranged(f, k, attrs[..i + 1])
  {
    ObjectArrangedSnoc(f, k, attrs, i);
  }

  lemma ObjectArrangedSnoc(f: Forest, k: string, attrs: seq<(string, Value)>, i: nat)
    requires Shaped(f) && i < |attrs|
    ensures ObjectArranged(f, k, attrs[..i + 1]) == AttrArranged(ObjectArranged(f, k, attrs[..i]), k, attrs[i].0, attrs[i].1)
  {
    assert attrs[..i + 1][..i] == attrs[..i];
  }

  lemma ArrangedSnoc(f: Forest, objs: seq<(string, Value)>, i: nat)
    requires Shaped(f) && i < |objs|
    ensures Arranged(f, objs[..i + 1]) ==
              if objs[i].1.Dict? then ObjectArranged(Arranged(f, objs[..i]), objs[i].0, objs[i].1.entries)
              else Arranged(f, objs[..i])
  {
    assert objs[..i + 1][..i] == objs[..i];
  }

  /** Every object of the observed data is a dict whose `type` attributes
      all hold true values. */
  ghost predicate Arrangeable(objs: seq<(string, Value)>) {
    forall j :: 0 <= j < |objs| ==> objs[j].1.Dict? && TypesTruthy(objs[j].1)
  }

  /** Every object key names a node. */
  ghost predicate KeysNamed(objs: seq<(string, Value)>, ids: map<string, nat>) {
    forall j :: 0 <= j < |objs| ==> objs[j].0 in ids
  }

  lemma KeysNamedKept(objs: seq<(string, Value)>, ids: map<string, nat>, ids': map<string, nat>)
    requires KeysNamed(objs, ids) && ids.Keys <= ids'.Keys
    ensures KeysNamed(objs, ids')
  {
  }

  lemma ArrangeableSnoc(objs: seq<(string, Value)>, i: nat)
    requires i < |objs| && Arrangeable(objs[..i]) && objs[i].1.Dict? && TypesTruthy(objs[i].1)
    ensures Arrangeable(objs[..i + 1])
  {
    assert forall j :: 0 <= j < i ==> objs[..i + 1][j] == objs[..i][j];
  }

  /** Arranging the nodes into trees, object by object. */
  method Arrange(t: NodeTable, objs: seq<(string, Value)>) returns (err: Option<FlattenError>)
    requires t.Valid() && KeysNamed(objs, t.ids)
    modifies t
    ensures err.None? ==> Arrangeable(objs)
    ensures t.Valid()
    ensures err.None? ==> t.Snap() == Arranged(old(t.Snap()), objs)
    ensures err == ArrangeError(old(t.Snap()), objs)
  {
    ghost var s0 := t.Snap();
    for i := 0 to |objs|
      invariant t.Valid() && KeysNamed(objs, t.ids)
      invariant Arrangeable(objs[..i])
      invariant t.Snap() == Arranged(s0, objs[..i])
      invariant KeysNamed(objs[..i], s0.ids) && ArrangeError(s0, objs[..i]).None?
    {
      ArrangedSnoc(s0, objs, i);
      ghost var ids, g := t.ids, t.Snap();
      ArrangeErrorStep(s0, objs, i, g);
      err := ArrangeObject(t, objs[i].0, objs[i].1);
      if err.Some? {
        ArrangeErrorStays(s0, objs, i + 1);
        assert err == ArrangeError(s0, objs);
        return;
      }
      KeysNamedKept(objs, ids, t.ids);
      ArrangeableSnoc(objs, i);
    }
    assert objs[..|objs|] == objs;
    err := None;
  }

  /** The columns of one attribute, written into the row: a list item by
      item, an object merged by its normalized keys, anything else as one
      cell; references are skipped. */
  method EmitAttr(row: Row, prefix: string, attr: string, val: Value) returns (out: Row)
    ensures out == Apply(row, AttrWrites(prefix, attr, val))
  {
    if IsRefAttr(attr) {
      return row;
    }
    match val
    case List(items) =>
      out := EmitList(row, prefix + attr, items);
      assert AttrWrites(prefix, attr, val) == ListWrites(prefix + attr, items);
    case Dict(entries) =>
      out := Apply(row, Normalize(entries, prefix + attr + "."));
    case _ =>
      out := SetColumn(row, prefix + attr, val);
  }

  /** The columns of a list attribute, one per item, `name[0]`, `name[1]`, ... */
  ghost function ListWrites(name: string, items: seq<Value>): Writes {
    seq(|items|, i requires 0 <= i < |items| => (name + "[" + NatToString(i) + "]", items[i]))
  }

  lemma ListWritesSnoc(name: string, items: seq<Value>, j: nat)
    requires j < |items|
    ensures ListWrites(name, items)[..j + 1] == ListWrites(name, items)[..j] + [(name + "[" + NatToString(j) + "]", items[j])]
  {
    var ws := ListWrites(name, items);
    assert ws[j] == (name + "[" + NatToString(j) + "]", items[j]);
  }

  method EmitList(row: Row, name: string, items: seq<Value>) returns (out: Row)
    ensures out == Apply(row, ListWrites(name, items))
  {
    ghost var ws := ListWrites(name, items);
    out := row;
    for j := 0 to |items|
      invariant out == Apply(row, ws[..j])
    {
      var col := name + "[" + NatToString(j) + "]";
      ListWritesSnoc(name, items, j);
      ApplySnoc(row, ws[..j], col, items[j]);
      out := SetColumn(out, col, items[j]);
    }
    assert ws[..|items|] == ws;
  }

  /** The columns of one node, attribute by attribute. */
  method EmitNode(row: Row, prefix: string, attrs: seq<(string, Value)>) returns (out: Row)
    ensures out == Apply(row, NodeWrites(prefix, attrs))
  {
    out := row;
    for i := 0 to |attrs|
      invariant Apply(out, NodeWrites(prefix, attrs[i..])) == Apply(row, NodeWrites(prefix, attrs))
    {
      assert attrs[i..][0] == attrs[i] && attrs[i..][1..] == attrs[i + 1..];
      ApplyAppend(out, AttrWrites(prefix, attrs[i].0, attrs[i].1), NodeWrites(prefix, attrs[i + 1..]));
      out := EmitAttr(out, prefix, attrs[i].0, attrs[i].1);
    }
    assert attrs[|attrs|..] == [];
  }

  /** `root.fields['type']`, which must be a string to take the `:`. */
  function RootType(t: NodeTable, r: nat): Result<string, FlattenError>
    reads t
    requires r < |t.fields|
  {
    match t.fields[r]
    case Dict(entries) =>
      (match Lookup(entries, "type")
       case None => Failure(MissingKey("type"))
       case Some(Str(ty)) => Success(ty)
       case Some(_) => Failure(TypeNotText))
    case _ => Failure(NotADict)
  }

  /** Every node in `xs` is a node of the table. */
  ghost predicate InTable(t: NodeTable, xs: seq<nat>)
    reads t
  {
    forall i :: 0 <= i < |xs| ==> xs[i] < |t.parent|
  }

  /** The columns the nodes `xs` of a tree whose root has type `ty` give, in
      walk order, each under the prefix `ty:` and its path; or the first
      node whose fields cannot be read. */
  function TreeWrites(t: NodeTable, xs: seq<nat>, ty: string): Result<Writes, FlattenError>
    reads t
    requires t.Valid() && InTable(t, xs)
    decreases |xs|
  {
    if xs == [] then Success([])
    else
      var x := xs[|xs| - 1];
      match TreeWrites(t, xs[..|xs| - 1], ty)
      case Failure(e) => Failure(e)
      case Success(w) =>
        if t.fields[x].Dict? then Success(w + NodeWrites(ty + ":" + t.Labels(x), t.fields[x].entries))
        else Failure(NotADict)
  }

  /** The columns of the trees of `roots`, one tree after the other, each
      walked in pre-order; or the first error met. */
  function ForestWrites(t: NodeTable, roots: seq<nat>): Result<Writes, FlattenError>
    reads t
    requires t.Valid() && InTable(t, roots)
    decreases |roots|
  {
    if roots == [] then Success([])
    else
      var r := roots[|roots| - 1];
      match ForestWrites(t, roots[..|roots| - 1])
      case Failure(e) => Failure(e)
      case Success(w) =>
        match RootType(t, r)
        case Failure(e) => Failure(e)
        case Success(ty) =>
          match TreeWrites(t, t.PreOrder(r), ty)
          case Failure(e) => Failure(e)
          case Success(w') => Success(w + w')
  }

  /** An error in the first `n` nodes is the error of the whole walk. */
  lemma {:induction false} TreeFailureStays(t: NodeTable, xs: seq<nat>, ty: string, n: nat)
    requires t.Valid() && InTable(t, xs) && n <= |xs| && TreeWrites(t, xs[..n], ty).Failure?
    ensures TreeWrites(t, xs, ty) == TreeWrites(t, xs[..n], ty)
    decreases |xs|
  {
    if n < |xs| {
      var init := xs[..|xs| - 1];
      assert init[..n] == xs[..n];
      TreeFailureStays(t, init, ty, n);
    } else {
      assert xs[..n] == xs;
    }
  }

  /** An error in the first `n` trees is the error of the whole forest. */
  lemma {:induction false} ForestFailureStays(t: NodeTable, roots: seq<nat>, n: nat)
    requires t.Valid() && InTable(t, roots) && n <= |roots| && ForestWrites(t, roots[..n]).Failure?
    ensures ForestWrites(t, roots) == ForestWrites(t, roots[..n])
    decreases |roots|
  {
    if n < |roots| {
      var init := roots[..|roots| - 1];
      assert init[..n] == roots[..n];
      ForestFailureStays(t, init, n);
    } else {
      assert roots[..n] == roots;
    }
  }

  /** A walk that succeeds reads every node it visits as an object, and
      every column of a visited node is among the walk's columns. */
  lemma {:induction false} TreeCovers(t: NodeTable, xs: seq<nat>, ty: string, j: nat, c: string)
    requires t.Valid() && InTable(t, xs) && TreeWrites(t, xs, ty).Success? && j < |xs|
    ensures t.fields[xs[j]].Dict?
    ensures LastWrite(NodeWrites(ty + ":" + t.Labels(xs[j]), t.fields[xs[j]].entries), c).Some? ==>
              LastWrite(TreeWrites(t, xs, ty).value, c).Some?
    decreases |xs|
  {
    var init := xs[..|xs| - 1];
    var x := xs[|xs| - 1];
    assert InTable(t, init);
    var w := TreeWrites(t, init, ty).value;
    var nw := NodeWrites(ty + ":" + t.Labels(x), t.fields[x].entries);
    assert TreeWrites(t, xs, ty).value == w + nw;
    LastWriteConcat(w, nw, c);
    if j < |xs| - 1 {
      assert init[j] == xs[j];
      TreeCovers(t, init, ty, j, c);
    }
  }

  /** A forest walk that succeeds reads the type of every root, walks every
      tree without error, and keeps every column of every tree. */
  lemma {:induction false} ForestCovers(t: NodeTable, roots: seq<nat>, i: nat, c: string)
    requires t.Valid() && InTable(t, roots) && ForestWrites(t, roots).Success? && i < |roots|
    ensures RootType(t, roots[i]).Success?
    ensures TreeWrites(t, t.PreOrder(roots[i]), RootType(t, roots[i]).value).Success?
    ensures LastWrite(TreeWrites(t, t.PreOrder(roots[i]), RootType(t, roots[i]).value).value, c).Some? ==>
              LastWrite(ForestWrites(t, roots).value, c).Some?
    decreases |roots|
  {
    var init := roots[..|roots| - 1];
    var r := roots[|roots| - 1];
    assert InTable(t, init);
    var w := ForestWrites(t, init).value;
    var w' := TreeWrites(t, t.PreOrder(r), RootType(t, r).value).value;
    assert ForestWrites(t, roots).value == w + w';
    LastWriteConcat(w, w', c);
    if i < |roots| - 1 {
      assert init[i] == roots[i];
      ForestCovers(t, init, i, c);
    }
  }

  /** Every column of node `x` is in `row`: the node's attributes, named
      under the type of its root, a colon, and the node's path. */
  ghost predicate Emitted(t: NodeTable, x: nat, row: Row)
    reads t
    requires t.Valid() && x < |t.parent|
  {
    && RootType(t, t.RootOf(x)).Success?
    && t.fields[x].Dict?
    && forall c :: LastWrite(NodeWrites(RootType(t, t.RootOf(x)).value + ":" + t.Labels(x), t.fields[x].entries), c).Some? ==>
                     Lookup(row, c).Some?
  }

  /** After a walk of the forest that succeeds, every node whose root is
      walked has all of its columns in the row. */
  lemma NodeColumnsEmitted(t: NodeTable, roots: seq<nat>, row0: Row, x: nat)
    requires t.Valid() && InTable(t, roots) && ForestWrites(t, roots).Success?
    requires x < |t.parent| && t.RootOf(x) in roots
    ensures Emitted(t, x, Apply(row0, ForestWrites(t, roots).value))
  {
    var ws := ForestWrites(t, roots).value;
    var i :| 0 <= i < |roots| && roots[i] == t.RootOf(x);
    var walk := t.PreOrder(roots[i]);
    t.InRootWalk(x);
    var j :| 0 <= j < |walk| && walk[j] == x;
    ForestCovers(t, roots, i, "");
    var ty := RootType(t, roots[i]).value;
    TreeCovers(t, walk, ty, j, "");
    forall c | LastWrite(NodeWrites(ty + ":" + t.Labels(x), t.fields[x].entries), c).Some?
      ensures Lookup(Apply(row0, ws), c).Some?
    {
      TreeCovers(t, walk, ty, j, c);
      ForestCovers(t, roots, i, c);
      ApplyLookup(row0, ws, c);
    }
  }

  /** Every column of a tree walk is a column of one of the nodes walked. */
  lemma {:induction false} TreeFrom(t: NodeTable, xs: seq<nat>, ty: string, c: string)
    requires t.Valid() && InTable(t, xs) && TreeWrites(t, xs, ty).Success?
    requires LastWrite(TreeWrites(t, xs, ty).value, c).Some?
    ensures exists j :: 0 <= j < |xs| && t.fields[xs[j]].Dict?
                        && LastWrite(NodeWrites(ty + ":" + t.Labels(xs[j]), t.fields[xs[j]].entries), c).Some?
    decreases |xs|
  {
    var init := xs[..|xs| - 1];
    var x := xs[|xs| - 1];
    assert InTable(t, init);
    var w := TreeWrites(t, init, ty).value;
    var nw := NodeWrites(ty + ":" + t.Labels(x), t.fields[x].entries);
    assert TreeWrites(t, xs, ty).value == w + nw;
    LastWriteConcat(w, nw, c);
    if LastWrite(nw, c).None? {
      TreeFrom(t, init, ty, c);
      var j :| 0 <= j < |init| && t.fields[init[j]].Dict?
               && LastWrite(NodeWrites(ty + ":" + t.Labels(init[j]), t.fields[init[j]].entries), c).Some?;
      assert init[j] == xs[j];
    }
  }

  /** Every column of a forest walk is a column of one of its trees. */
  lemma {:induction false} ForestFrom(t: NodeTable, roots: seq<nat>, c: string)
    requires t.Valid() && InTable(t, roots) && ForestWrites(t, roots).Success?
    requires LastWrite(ForestWrites(t, roots).value, c).Some?
    ensures exists i :: 0 <= i < |roots| && RootType(t, roots[i]).Success?
                        && TreeWrites(t, t.PreOrder(roots[i]), RootType(t, roots[i]).value).Success?
                        && LastWrite(TreeWrites(t, t.PreOrder(roots[i]), RootType(t, roots[i]).value).value, c).Some?
    decreases |roots|
  {
    var init := roots[..|roots| - 1];
    var r := roots[|roots| - 1];
    assert InTable(t, init);
    var w := ForestWrites(t, init).value;
    var w' := TreeWrites(t, t.PreOrder(r), RootType(t, r).value).value;
    assert ForestWrites(t, roots).value == w + w';
    LastWriteConcat(w, w', c);
    if LastWrite(w', c).None? {
      ForestFrom(t, init, c);
      var i :| 0 <= i < |init| && RootType(t, init[i]).Success?
               && TreeWrites(t, t.PreOrder(init[i]), RootType(t, init[i]).value).Success?
               && LastWrite(TreeWrites(t, t.PreOrder(init[i]), RootType(t, init[i]).value).value, c).Some?;
      assert init[i] == roots[i];
    }
  }

  /** Column `c` is written by a non-reference attribute of node `x`, named
      under the prefix `ty:` and the node's path. */
  ghost predicate FromAttr(t: NodeTable, ty: string, x: nat, c: string)
    reads t
    requires t.Valid() && x < |t.parent|
  {
    && t.fields[x].Dict?
    && exists k :: 0 <= k < |t.fields[x].entries| && WrittenBy(ty + ":" + t.Labels(x), t.fields[x].entries[k], c)
  }

  /** Column `c` comes from an attribute of a node in the tree of one of
      the roots, named under the type of that root. */
  ghost predicate Sourced(t: NodeTable, roots: seq<nat>, c: string)
    reads t
    requires t.Valid() && InTable(t, roots)
  {
    exists i, x :: 0 <= i < |roots| && x in t.PreOrder(roots[i]) && RootType(t, roots[i]).Success?
                   && x < |t.parent| && FromAttr(t, RootType(t, roots[i]).value, x, c)
  }

  /** Conversely, every column the walk writes comes from an attribute of a
      node in the tree of one of the roots. */
  lemma ColumnSource(t: NodeTable, roots: seq<nat>, c: string)
    requires t.Valid() && InTable(t, roots) && ForestWrites(t, roots).Success?
    requires LastWrite(ForestWrites(t, roots).value, c).Some?
    ensures Sourced(t, roots, c)
  {
    ForestFrom(t, roots, c);
    var i :| 0 <= i < |roots| && RootType(t, roots[i]).Success?
             && TreeWrites(t, t.PreOrder(roots[i]), RootType(t, roots[i]).value).Success?
             && LastWrite(TreeWrites(t, t.PreOrder(roots[i]), RootType(t, roots[i]).value).value, c).Some?;
    var ty := RootType(t, roots[i]).value;
    NodeFrom(t, roots[i], ty, c);
  }

  lemma NodeFrom(t: NodeTable, r: nat, ty: string, c: string)
    requires t.Valid() && r < |t.parent| && TreeWrites(t, t.PreOrder(r), ty).Success?
    requires LastWrite(TreeWrites(t, t.PreOrder(r), ty).value, c).Some?
    ensures exists x :: x in t.PreOrder(r) && x < |t.parent| && FromAttr(t, ty, x, c)
  {
    var walk := t.PreOrder(r);
    TreeFrom(t, walk, ty, c);
    var j :| 0 <= j < |walk| && t.fields[walk[j]].Dict?
             && LastWrite(NodeWrites(ty + ":" + t.Labels(walk[j]), t.fields[walk[j]].entries), c).Some?;
    AttrFrom(t, ty, walk[j], c);
  }

  lemma AttrFrom(t: NodeTable, ty: string, x: nat, c: string)
    requires t.Valid() && x < |t.parent| && t.fields[x].Dict?
    requires LastWrite(NodeWrites(ty + ":" + t.Labels(x), t.fields[x].entries), c).Some?
    ensures FromAttr(t, ty, x, c)
  {
    NodeWritesFromAttrs(ty + ":" + t.Labels(x), t.fields[x].entries, c);
  }

  /** The walk over one tree, node by node, writing every column into the
      row: exactly the columns of `TreeWrites`. */
  method EmitTree(t: NodeTable, xs: seq<nat>, ty: string, row0: Row) returns (r: Result<Row, FlattenError>)
    requires t.Valid() && InTable(t, xs)
    ensures TreeWrites(t, xs, ty).Failure? ==> r == Failure(TreeWrites(t, xs, ty).error)
    ensures TreeWrites(t, xs, ty).Success? ==> r == Success(Apply(row0, TreeWrites(t, xs, ty).value))
  {
    var row := row0;
    for j := 0 to |xs|
      invariant TreeWrites(t, xs[..j], ty).Success?
      invariant row == Apply(row0, TreeWrites(t, xs[..j], ty).value)
    {
      var x := xs[j];
      assert xs[..j + 1][..j] == xs[..j] && xs[..j + 1][j] == x;
      var pre := t.PathPrefix(x);
      if !t.fields[x].Dict? {
        TreeFailureStays(t, xs, ty, j + 1);
        return Failure(NotADict);
      }
      ApplyAppend(row0, TreeWrites(t, xs[..j], ty).value, NodeWrites(ty + ":" + pre, t.fields[x].entries));
      row := EmitNode(row, ty + ":" + pre, t.fields[x].entries);
    }
    assert xs[..|xs|] == xs;
    r := Success(row);
  }

  /** The walk over the roots, tree by tree: exactly the columns of
      `ForestWrites`. */
  method Emit(t: NodeTable, roots: seq<nat>, row0: Row) returns (r: Result<Row, FlattenError>)
    requires t.Valid() && InTable(t, roots)
    ensures ForestWrites(t, roots).Failure? ==> r == Failure(ForestWrites(t, roots).error)
    ensures ForestWrites(t, roots).Success? ==> r == Success(Apply(row0, ForestWrites(t, roots).value))
  {
    var row := row0;
    for i := 0 to |roots|
      invariant ForestWrites(t, roots[..i]).Success?
      invariant row == Apply(row0, ForestWrites(t, roots[..i]).value)
    {
      var root := roots[i];
      assert roots[..i + 1][..i] == roots[..i] && roots[..i + 1][i] == root;
      var ty := RootType(t, root);
      if ty.Failure? {
        ForestFailureStays(t, roots, i + 1);
        return Failure(ty.error);
      }
      var tree := EmitTree(t, t.PreOrder(root), ty.value, row);
      if tree.Failure? {
        ForestFailureStays(t, roots, i + 1);
        return Failure(tree.error);
      }
      ApplyAppend(row0, ForestWrites(t, roots[..i]).value, TreeWrites(t, t.PreOrder(root), ty.value).value);
      row := tree.value;
    }
    assert roots[..|roots|] == roots;
    r := Success(row);
  }

  /** The entries of the observed data other than `objects`. */
  function WithoutObjects(entries: seq<(string, Value)>): (r: seq<(string, Value)>)
    ensures forall e :: e in r <==> e in entries && e.0 != "objects"
    decreases |entries|
  {
    if entries == [] then []
    else (if entries[0].0 == "objects" then [] else [entries[0]]) + WithoutObjects(entries[1..])
  }

  /** The columns the row starts with: the observed data itself, without
      its objects, through `json_normalize`. */
  function Seed(entries: seq<(string, Value)>): Writes {
    Normalize(WithoutObjects(entries), "")
  }

  /** An observed-data object. */
  predicate Observed(obj: Value) {
    obj.Dict? && Lookup(obj.entries, "type") == Some(Str("observed-data"))
  }

  /** Its `objects` entry, when it has one. */
  function ObjectsOf(obj: Value): Option<Value>
    requires obj.Dict?
  {
    Lookup(obj.entries, "objects")
  }

  /** A value inside a well-formed dict is well formed. */
  lemma LookupWellFormed(entries: seq<(string, Value)>, key: string)
    requires WellFormed(Dict(entries)) && Lookup(entries, key).Some?
    ensures WellFormed(Lookup(entries, key).value)
  {
    var i :| 0 <= i < |entries| && entries[i] == (key, Lookup(entries, key).value);
  }

  /** The observed-data branch of `flatten_sco`, from the node table on: the
      row starts with the `seed` columns and the trees add theirs.  `table`
      is the node table as the walk found it: every node named in it has
      all of its columns in the row. */
  method FlattenObjects(objs: seq<(string, Value)>, seed: Writes)
    returns (r: Result<Row, FlattenError>, ghost table: NodeTable, ghost roots: seq<nat>)
    requires DistinctKeys(objs)
    ensures !Arrangeable(objs) ==> r.Failure?
    ensures r.Success? ==> table.Valid() && table.Snap() == Arranged(Initial(objs), objs)
    ensures r.Success? ==> table.Valid() && roots == FirstSeenOf(table.RootsOf(table.Nodes()))
    ensures r.Success? ==> table.Valid() && InTable(table, roots) && ForestWrites(table, roots).Success?
                           && r.value == Apply(Apply([], seed), ForestWrites(table, roots).value)
    ensures r.Success? ==> forall c :: LastWrite(seed, c).Some? ==> Lookup(r.value, c).Some?
    ensures r.Success? ==> table.Valid() && forall x :: x in table.Nodes() ==> Emitted(table, x, r.value)
    ensures r.Success? ==> table.Valid() && InTable(table, roots)
                           && forall c :: Lookup(r.value, c).Some? ==> LastWrite(seed, c).Some? || Sourced(table, roots, c)
    ensures ArrangeError(Initial(objs), objs).Some? ==> r == Failure(ArrangeError(Initial(objs), objs).value)
    ensures ArrangeError(Initial(objs), objs).None? ==>
              && table.Valid() && table.Snap() == Arranged(Initial(objs), objs)
              && roots == FirstSeenOf(table.RootsOf(table.Nodes())) && InTable(table, roots)
              && (r.Success? <==> ForestWrites(table, roots).Success?)
              && (r.Failure? ==> r.error == ForestWrites(table, roots).error)
  {
    var t := NewTable(objs);
    table := t;
    roots := [];
    assert KeysNamed(objs, t.ids);
    var err := Arrange(t, objs);
    if err.Some? {
      return Failure(err.value), t, roots;
    }
    var rs := t.CollectRoots();
    roots := rs;
    var row := Apply([], seed);
    r := Emit(t, rs, row);
    if r.Success? {
      ghost var ws := ForestWrites(t, roots).value;
      forall c | LastWrite(seed, c).Some?
        ensures Lookup(r.value, c).Some?
      {
        ApplyLookup([], seed, c);
        ApplyLookup(row, ws, c);
      }
      forall x | x in t.Nodes()
        ensures Emitted(t, x, r.value)
      {
        var xs := t.Nodes();
        var j :| 0 <= j < |xs| && xs[j] == x;
        assert t.RootsOf(xs)[j] == t.RootOf(x);
        NodeColumnsEmitted(t, roots, row, x);
      }
      forall c | Lookup(r.value, c).Some?
        ensures LastWrite(seed, c).Some? || Sourced(t, roots, c)
      {
        ApplyLookup([], seed, c);
        ApplyLookup(row, ws, c);
        if LastWrite(ws, c).Some? {
          ColumnSource(t, roots, c);
        }
      }
    }
  }

  /** `flatten_sco`: an object that is not observed data comes back as it
      is; observed data becomes one row, seeded with its own columns, to
      which the trees of its objects add theirs. */
  method FlattenSco(obj: Value) returns (r: Result<seq<Flat>, FlattenError>, ghost table: NodeTable?, ghost roots: seq<nat>)
    requires WellFormed(obj)
    ensures !obj.Dict? ==> r == Failure(NotADict)
    ensures obj.Dict? && Lookup(obj.entries, "type").None? ==> r == Failure(MissingKey("type"))
    ensures obj.Dict? && Lookup(obj.entries, "type").Some? && !Observed(obj) ==> r == Success([PassThrough(obj)])
    ensures Observed(obj) && ObjectsOf(obj).None? ==> r == Failure(MissingKey("objects"))
    ensures Observed(obj) && ObjectsOf(obj).Some? && !ObjectsOf(obj).value.Dict? ==> r == Failure(NotADict)
    ensures Observed(obj) && ObjectsOf(obj).Some? && ObjectsOf(obj).value.Dict? && !Arrangeable(ObjectsOf(obj).value.entries) ==> r.Failure?
    ensures Observed(obj) && r.Success? ==>
              |r.value| == 1 && r.value[0].Frame?
              && (forall c :: LastWrite(Seed(obj.entries), c).Some? ==> Lookup(r.value[0].row, c).Some?)
              && table != null && table.Valid()
              && forall x :: x in table.Nodes() ==> Emitted(table, x, r.value[0].row)
    ensures Observed(obj) && r.Success? ==>
              ObjectsOf(obj).Some? && ObjectsOf(obj).value.Dict? && |r.value| == 1 && r.value[0].Frame?
              && table != null && table.Valid()
              && table.Snap() == Arranged(Initial(ObjectsOf(obj).value.entries), ObjectsOf(obj).value.entries)
              && roots == FirstSeenOf(table.RootsOf(table.Nodes()))
              && InTable(table, roots) && ForestWrites(table, roots).Success?
              && r.value[0].row == Apply(Apply([], Seed(obj.entries)), ForestWrites(table, roots).value)
              && forall c :: Lookup(r.value[0].row, c).Some? ==> LastWrite(Seed(obj.entries), c).Some? || Sourced(table, roots, c)
    ensures Observed(obj) && ObjectsOf(obj).Some? && ObjectsOf(obj).value.Dict? ==>
              var objs := ObjectsOf(obj).value.entries;
              && (ArrangeError(Initial(objs), objs).Some? ==> r == Failure(ArrangeError(Initial(objs), objs).value))
              && (ArrangeError(Initial(objs), objs).None? ==>
                    && table != null && table.Valid() && table.Snap() == Arranged(Initial(objs), objs)
                    && roots == FirstSeenOf(table.RootsOf(table.Nodes())) && InTable(table, roots)
                    && (r.Success? <==> ForestWrites(table, roots).Success?)
                    && (r.Failure? ==> r.error == ForestWrites(table, roots).error))
  {
    table := null;
    roots := [];
    if !obj.Dict? {
      r := Failure(NotADict);
      return;
    }
    var ty := Lookup(obj.entries, "type");
    if ty.None? {
      r := Failure(MissingKey("type"));
      return;
    }
    if ty.value != Str("observed-data") {
      r := Success([PassThrough(obj)]);
      return;
    }
    var objects := Lookup(obj.entries, "objects");
    if objects.None? {
      r := Failure(MissingKey("objects"));
      return;
    }
    if !objects.value.Dict? {
      r := Failure(NotADict);
      return;
    }
    LookupWellFormed(obj.entries, "objects");
    var row;
    row, table, roots := FlattenObjects(objects.value.entries, Seed(obj.entries));
    if row.Failure? {
      r := Failure(row.error);
      return;
    }
    r := Success([Frame(row.value)]);
  }

  /** The client that keeps the connector configurations by name. */
  class StixShifterDataFrame {
    var configs: map<string, seq<(string, Value)>>

    constructor ()
      ensures configs == map[]
    {
      configs := map[];
    }

    /** `add_config`: a configuration without both a `connection` and a
        `configuration` entry is refused; any other is stored under its
        name, replacing an older one and leaving the other names alone. */
    method AddConfig(name: string, content: seq<(string, Value)>) returns (accepted: bool)
      modifies this
      ensures accepted <==> Lookup(content, "connection").Some? && Lookup(content, "configuration").Some?
      ensures accepted ==> configs == old(configs)[name := content]
      ensures accepted ==> forall n :: n in old(configs) && n != name ==> n in configs && configs[n] == old(configs)[n]
      ensures !accepted ==> configs == old(configs)
    {
      if Lookup(content, "connection").None? || Lookup(content, "configuration").None? {
        return false;
      }
      configs := configs[name := content];
      accepted := true;
    }
  }
}
