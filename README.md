# ibm-security-notebooks: STIX flattening and the security API clients, in Dafny

This project models three pieces of the IBM security notebooks' Python client code and proves what they promise.

- **`StixShifterDataFrame.flatten_sco`** (`pyclient/stix_shifter_dataframe.py`) takes one STIX observed-data object and flattens its cyber-observable objects into one row of named columns.
  - It builds a node table (anytree `Node`s) with one node per object.
  - It arranges the nodes into trees by their `_ref` and `_refs` references. A `_ref` target that already has a parent is cloned under the id `str(len(nodes))`, which rebinds that id when an object key already uses it. A `_refs` target is re-parented.
  - It walks each root's tree in pre-order. Each non-reference attribute becomes a column named by the root's `type`, a colon, the dotted path of reference prefixes down to the node, and the attribute: a list gives `attr[i]`, anything else but an object gives `attr`. An object is merged with `DataFrame.update`, which adds no column; the flattening chain here adds its `attr.key` columns instead (see Findings and Left out).
  - `add_config` keeps connector configurations by name.
- **`QRadar`** (`cp4s-notebooks/qradar-examples/qradar.py`) is the Ariel search client:
  - credential headers;
  - the AQL query with optional `LIMIT`, `START … STOP` and `PARAMETERS PRIORITY` clauses;
  - a status poll bounded by a deadline;
  - a bounded retry when loading results;
  - an optional delete of the search cursor.
- **`SecuredAPI`** (`pyclient/general.py`) is a generic REST client:
  - credential headers;
  - a sticky "latest URL" joined with `strip('/')`;
  - a request routine that retries on statuses of 400 and above;
  - `get`, `post`, `delete` and `get_endpoint`.

How the model is laid out:

- **State changes in place.** Where the source updates state in place, the model does too:
  - `StixForest.NodeTable` is the anytree forest plus the `nodes` dict;
  - `StixShifterDataFrame.configs` is the configuration store;
  - the `headers` and `url` fields of the two clients.
- **Loops and recursion.** The loops and recursive retries of the source are methods with loops or recursion. Each is proved against a specification function: `Initial` and `Arranged` (with `RefArranged`, `RefsArranged`, `ObjectArranged`) for building and arranging the node table, with `ArrangeError` (through `ObjectError`, `EntriesError`, `EntryError`, `AttrError`, `RefError`, `RefsError` and `MoveError`) for the first error the arrangement raises, `AttrLeft` (with `RefsLeft`) for the table one attribute leaves whether or not it raises, `TreeWrites`/`ForestWrites` for the column walk, `Labels` for the path walk, `FirstSeenOf(RootsOf(...))` for the root set, `Query` for the query building, `PollRun`, `FetchRun` and `Awaited` for the search, and `Tries` for the request retries. The node table's value is `NodeTable.Snap()`, a `Forest`. On the value, anytree's loop check is `Reaches`, which follows the parent links alone.
- **I/O as inputs.** HTTP answers and clock readings are input sequences. Each request the client makes is recorded as a value (`Call`, `Sent`).
- **JSON.** Values are modelled by `Json.Value`. Dicts are entry sequences in insertion order.
- **Shared helpers.** `Text` holds the string helpers: `endswith`, `strip`, `str(int)`. `Wrappers` holds `Option` and `Result`.

## Model

| member | source | states |
|---|---|---|
| StixFlatten.StixShifterDataFrame.constructor | pyclient/stix_shifter_dataframe.py:12-13 | a new client has no configurations |
| StixFlatten.StixShifterDataFrame.AddConfig | pyclient/stix_shifter_dataframe.py:16-21 | accepted exactly when the content has both `connection` and `configuration`; if accepted, the name maps to the content (an old entry is replaced) and every other name keeps its entry; if refused, nothing changes |
| StixFlatten.FlattenSco | pyclient/stix_shifter_dataframe.py:88-143 | an object that is not a dict, or has no `type`, fails; one whose type is not `observed-data` comes back unchanged as `[obj]`; a missing or non-dict `objects` fails; objects that are not all dicts with truthy `type` fail; with `objects` a dict, it fails with exactly `ArrangeError(Initial(objects), objects)` when that is an error, and otherwise the table is `Arranged(Initial(objects), objects)` and it succeeds exactly when `ForestWrites` of the first-seen roots does, failing with that walk's error; on success the result is one frame whose row is exactly the seed columns overwritten by `ForestWrites` of the table `Arranged(Initial(objects), objects)` walked from its roots `FirstSeenOf(RootsOf(Nodes()))`; every seed column and every column of every named node is in it, and every column in it is a seed column or comes from an attribute of a walked node |
| StixFlatten.FlattenObjects | pyclient/stix_shifter_dataframe.py:92-143 | the observed-data branch from the node table on: fails unless every object is arrangeable; it fails with exactly `ArrangeError(Initial(objs), objs)` when that is an error, and otherwise the table is `Arranged(Initial(objs), objs)` with its first-seen roots and it succeeds exactly when `ForestWrites(table, roots)` does, failing with that walk's error; on success the table is `Arranged(Initial(objs), objs)`, the roots are its first-seen roots, the walk succeeds and the row is exactly `Apply(Apply([], seed), ForestWrites(table, roots))`; every seed column and every column of every named node is in the row, and conversely every column of the row is a seed column or `Sourced` from a walked node's attribute |
| StixFlatten.NewTable | pyclient/stix_shifter_dataframe.py:93-97 | the table is `Initial(objs)`: every key of `objects` gets exactly one node, in key order, named by that key, holding that object's attribute map, with no parent |
| StixFlatten.Initial | pyclient/stix_shifter_dataframe.py:96-97 | the starting table as a value: a well-shaped forest with one node per object, in which every object key names a node |
| StixFlatten.InitialLoaded | pyclient/stix_shifter_dataframe.py:96-97 | with distinct keys, the starting table holds object `j` as node `j`, named by its key, without a parent, and names nothing else |
| StixFlatten.InitialSnoc | pyclient/stix_shifter_dataframe.py:96-97 | one more object adds one more node to the starting table |
| StixFlatten.LoadedStep | pyclient/stix_shifter_dataframe.py:96-97 | adding the next object's node keeps the first nodes named by their keys |
| StixForest.Added | pyclient/stix_shifter_dataframe.py:97 | `Node(k, parent=par, fields=v)` stored as `nodes[k]` on the value: one more node holding `v`, named by `k`, and every old name kept |
| StixForest.Moved | pyclient/stix_shifter_dataframe.py:110 | the parent setter on the value: only that node's parent becomes `p`, fields, prefixes, names and key order kept |
| StixForest.Prefixed | pyclient/stix_shifter_dataframe.py:111 | `node.prefix = s` on the value: that one prefix changes |
| StixForest.NodeTable.constructor | pyclient/stix_shifter_dataframe.py:93 | the empty `nodes` dict is a valid table |
| StixForest.NodeTable.AddNode | pyclient/stix_shifter_dataframe.py:97 | a new node goes at the end of the table, last among its parent's children; its key names it from now on; the table stays acyclic and linked, and as a value it is `Added` of the old one |
| StixForest.NodeTable.Grow | pyclient/stix_shifter_dataframe.py:106 | `Node(..., parent=p, fields=f)`: the node is appended and joins its parent's children; the names are unchanged; the forest stays valid |
| StixForest.NodeTable.Name | pyclient/stix_shifter_dataframe.py:107 | `nodes[key] = node` rebinds the key; the key order gains the key only when it is new; nodes and links are unchanged |
| StixForest.AddLinked | pyclient/stix_shifter_dataframe.py:106 | a new leaf keeps the parent links acyclic (under lifted ranks) and in agreement with the children lists |
| StixForest.AddNamed | pyclient/stix_shifter_dataframe.py:107 | rebinding a key keeps every id naming a node and the key order duplicate-free |
| StixFlatten.RefAttr | pyclient/stix_shifter_dataframe.py:102-111 | a `_ref` to an unknown id fails and leaves the whole table as it was; a target that has a parent is cloned: one more node with the target's fields, parent the referencing node, prefix the attribute, named `str(len(nodes))` (overwriting any node of that name); a target without a parent moves under the referencing node with the attribute as prefix, unless anytree refuses the loop, which leaves the table as it was; on success the whole table, children lists and key order included, is `RefArranged` of the old one; the error is exactly `RefError` of the old table |
| StixFlatten.RefArranged | pyclient/stix_shifter_dataframe.py:102-111 | one accepted `_ref`, on the value: a target with a parent is cloned with the id `str(len(nodes))`, another target moves under the object; the forest stays well shaped and keeps every name |
| StixFlatten.Adopt | pyclient/stix_shifter_dataframe.py:110-111 | `nodes[ref].parent = p` then `.prefix = pfx`: an unknown id fails; the move succeeds exactly when the target is not `p` or one of its ancestors; on success the whole table is `Prefixed(Moved(old, target, p), target, pfx)`, so only that node's parent and prefix and the two children lists involved change; on failure the table is unchanged; the error is exactly `MoveError` of the old table: `DanglingRef` for an unknown id, else `LoopError` when the target `Reaches` up from `p` |
| StixForest.NodeTable.SetParent | pyclient/stix_shifter_dataframe.py:110 | anytree's parent setter: refused exactly when the node is the new parent or one of its ancestors; otherwise the node's parent becomes `p`, and it leaves its old parent's children and goes last in `p`'s; nothing else changes, and as a value the table is `Moved` of the old one |
| StixForest.NodeTable.Move | pyclient/stix_shifter_dataframe.py:110 | a permitted move changes exactly one parent link and the two children lists involved, and keeps the forest acyclic |
| StixForest.NodeTable.SetPrefix | pyclient/stix_shifter_dataframe.py:111 | `node.prefix = s` changes that one prefix only: the table is `Prefixed` of the old one |
| StixForest.NodeTable.IsAncestorOrSelf | pyclient/stix_shifter_dataframe.py:110 | the walk up the parents answers exactly whether `c` is `x` or an ancestor of `x` |
| StixForest.BelowRank | pyclient/stix_shifter_dataframe.py:110 | an ancestor never has a smaller rank, so the walk up ends |
| StixForest.ShiftRanked | pyclient/stix_shifter_dataframe.py:110 | moving a node under a node outside its subtree keeps the parent links acyclic |
| StixForest.RelinkLinked | pyclient/stix_shifter_dataframe.py:110 | a detach from the old parent plus an attach to the new one keeps children lists and parent links in agreement |
| Text.Remove | pyclient/stix_shifter_dataframe.py:110 | detaching removes exactly the moved node from the old parent's children and keeps them duplicate-free |
| StixFlatten.RefTargets | pyclient/stix_shifter_dataframe.py:113 | `enumerate(val)` of a `_refs` value: a list's items, a string's characters, a dict's keys; anything else is not iterable |
| StixFlatten.RefsAttr | pyclient/stix_shifter_dataframe.py:112-115 | a `_refs` value that cannot be iterated fails with `NotIterable` and changes nothing; otherwise the error is exactly `RefsError` of the old table over the targets, and it succeeds exactly when every id names a node that is not the referencing node or one of its ancestors (`Clear`); on success each target is a child of the referencing node with the prefix `attr[i]` of its last position, every other node keeps its parent and prefix, and the whole table is `RefsArranged` of the old one; on failure at index `i` the error is that of `FailsAt` (`DanglingRef` or `LoopError`) and the table is `RefsArranged` of the first `i` targets; for an iterable value the table afterwards is `RefsLeft` of the old one |
| StixFlatten.MoveTargets | pyclient/stix_shifter_dataframe.py:113-115 | the `enumerate` loop: it succeeds exactly when every target is `Clear` of the old table, with the error exactly `RefsError` of the old table; on success the targets are children of `p` with the prefixes of their last positions, every other node keeps its parent and prefix, and the table is `RefsArranged` of the old one; on failure at index `i` the error is that of `FailsAt` and the table is `RefsArranged` of the first `i` targets; in every case the table is `RefsLeft` of the old one |
| StixFlatten.RefsErrorStep | pyclient/stix_shifter_dataframe.py:113-115 | after error-free targets, the next target's error is `MoveError` on the forest the earlier moves left |
| StixFlatten.RefsErrorStays | pyclient/stix_shifter_dataframe.py:113-115 | a move refused among the first `n` targets is the error of the whole attribute: the loop stops there |
| StixFlatten.RefsStopped | pyclient/stix_shifter_dataframe.py:113-115 | when the move of target `n` is refused after error-free ones, that refusal is the attribute's error and the table keeps exactly the moves before it |
| StixFlatten.RefsLeftStays | pyclient/stix_shifter_dataframe.py:113-115 | once a move is refused, later targets do not change what the attribute leaves: the moves before the refused one |
| StixFlatten.RefsLeftArranged | pyclient/stix_shifter_dataframe.py:113-115 | without a refused move, a `_refs` attribute leaves all its moves, `RefsArranged` |
| StixFlatten.RefsArranged | pyclient/stix_shifter_dataframe.py:112-115 | the targets of a `_refs` attribute moved under `p` one after the other, each with the prefix `attr[i]`; fields, names and key order are kept |
| StixFlatten.RefsArrangedSnoc | pyclient/stix_shifter_dataframe.py:113-115 | one more target moves that target on top of the earlier ones |
| StixFlatten.ClearSnoc | pyclient/stix_shifter_dataframe.py:113-115 | a list of targets is clear when its prefix is and the next target names a node outside the referencing node's ancestors |
| StixFlatten.FailsNotClear | pyclient/stix_shifter_dataframe.py:113-115 | a list with a failing target is not clear, so success and clearness agree |
| StixForest.BelowReaches | pyclient/stix_shifter_dataframe.py:110 | the ranked ancestor relation used by the table is exactly `Reaches`, the walk up the parent links, so anytree's refusal can be stated on the forest value without the ghost ranks |
| StixForest.BelowMoved | pyclient/stix_shifter_dataframe.py:110 | moving a node that is not an ancestor-or-self of `y` does not change the ancestors of `y`, so the earlier targets never change whether a later one is refused |
| StixFlatten.ReparentStep | pyclient/stix_shifter_dataframe.py:113-115 | moving one more target keeps the description above true |
| StixFlatten.ParentsStep | pyclient/stix_shifter_dataframe.py:114 | every target moved so far has the referencing node as parent |
| StixFlatten.PrefixesStep | pyclient/stix_shifter_dataframe.py:115 | the last write of a target's prefix is the one that counts |
| StixFlatten.OthersStep | pyclient/stix_shifter_dataframe.py:113-115 | nodes that are not targets keep their parent and prefix |
| StixFlatten.Resolve | pyclient/stix_shifter_dataframe.py:114 | the targets a `_refs` list names, one per id |
| StixFlatten.ResolveSnoc | pyclient/stix_shifter_dataframe.py:113-114 | resolving one more id appends its node |
| StixFlatten.ArrangeObject | pyclient/stix_shifter_dataframe.py:101-118 | an object that is not a dict fails with `NotADict`; the error is exactly `ObjectError` of the old table, the first error of its attributes in order; success means every `type` attribute holds a true value and the table is `ObjectArranged` of the old one over the object's attributes in order; no id loses its node |
| StixFlatten.ArrangeAttr | pyclient/stix_shifter_dataframe.py:102-115 | the `if _ref / elif _refs` part of one attribute: a non-reference attribute never fails and never changes the table, the error is exactly `AttrError` of the old table, and on success the table is `AttrArranged` of the old one; the table afterwards, error or not, is `AttrLeft` of the old one: a refused `_ref` or a non-iterable `_refs` leaves it as it was, and a refused `_refs` target leaves the moves before it (`RefsLeft`) |
| StixFlatten.ArrangeEntry | pyclient/stix_shifter_dataframe.py:101-118 | one attribute of the object loop: its reference part, then `assert val` for `type`; it fails exactly on a falsy `type` when the attribute is not a reference, and success means the table is `AttrArranged` of the old one and a `type` value is true; the error is exactly `EntryError` of the old table; the table afterwards, error or not, is `AttrLeft` of the old one, so a falsy `type` leaves it as it was |
| StixFlatten.AttrArranged | pyclient/stix_shifter_dataframe.py:102-115 | one attribute on the value: a `_ref` as `RefArranged`, a `_refs` as `RefsArranged`, anything else leaves the forest as it is |
| StixFlatten.EntriesErrorStep | pyclient/stix_shifter_dataframe.py:101-118 | after error-free attributes, the next attribute's error is `EntryError` on the forest the earlier ones left |
| StixFlatten.EntriesErrorStays | pyclient/stix_shifter_dataframe.py:101-118 | an error among the first `n` attributes is the error of the object: the loop stops there |
| StixFlatten.ObjectArranged | pyclient/stix_shifter_dataframe.py:101-115 | the attributes of one object on the value, in order |
| StixFlatten.ObjectArrangedSnoc | pyclient/stix_shifter_dataframe.py:101-115 | one more attribute applies `AttrArranged` on top of the earlier ones |
| StixFlatten.ObjectArrangedStep | pyclient/stix_shifter_dataframe.py:101-115 | the same step stated on forests given by name |
| StixFlatten.TypedStep | pyclient/stix_shifter_dataframe.py:116-118 | a `type` attribute that passes the check extends the checked prefix |
| StixFlatten.Arrange | pyclient/stix_shifter_dataframe.py:100-118 | the error is exactly `ArrangeError` of the old table, the first error of the objects in order; arrangement succeeds only if every object is a dict whose `type` attributes are truthy, and then the table is `Arranged` of the old one over the objects in order, so the type check happens before any column is written |
| StixFlatten.Arranged | pyclient/stix_shifter_dataframe.py:100-115 | the objects on the value, one after the other, each as `ObjectArranged` |
| StixFlatten.ArrangedSnoc | pyclient/stix_shifter_dataframe.py:100-115 | one more object applies `ObjectArranged` on top of the earlier ones |
| StixFlatten.ArrangeErrorStep | pyclient/stix_shifter_dataframe.py:100-118 | after error-free objects, the next object's error is `ObjectError` on the forest the earlier ones left, and its key names a node there |
| StixFlatten.ArrangeErrorStays | pyclient/stix_shifter_dataframe.py:100-118 | an error among the first `n` objects is the error of the whole arrangement |
| StixFlatten.ArrangeableSnoc | pyclient/stix_shifter_dataframe.py:100-118 | an arrangeable prefix followed by an arrangeable object is arrangeable |
| StixFlatten.KeysNamedKept | pyclient/stix_shifter_dataframe.py:100 | every object key keeps naming a node while names are only added |
| StixForest.NodeTable.RootOf | pyclient/stix_shifter_dataframe.py:121 | `node.root` is an ancestor-or-self of the node and has no parent |
| StixForest.NodeTable.Root | pyclient/stix_shifter_dataframe.py:121 | the walk up the parents ends at `RootOf` |
| StixForest.NodeTable.Nodes | pyclient/stix_shifter_dataframe.py:121 | `nodes.values()`: the node each id names, in key order |
| StixForest.NodeTable.RootsOf | pyclient/stix_shifter_dataframe.py:121 | the root of each node, position by position |
| StixForest.NodeTable.CollectRoots | pyclient/stix_shifter_dataframe.py:121 | `set(node.root for node in nodes.values())`: exactly `FirstSeenOf(RootsOf(Nodes()))`, so no root twice, a node is listed exactly when it is the root of a named node, and each listed node has no parent |
| StixForest.FirstSeenOf | pyclient/stix_shifter_dataframe.py:121 | the roots in the order first met: no value twice, and a value is listed exactly when it occurs in the input |
| StixForest.FirstSeenSnoc | pyclient/stix_shifter_dataframe.py:121 | meeting one more root appends it exactly when it is new |
| StixForest.ParentlessWithin | pyclient/stix_shifter_dataframe.py:121 | if every root met has no parent, neither has any root listed |
| StixFlatten.WithoutObjects | pyclient/stix_shifter_dataframe.py:122 | the observed data's entries other than `objects`, and all of them |
| StixColumns.NormalizeFrom | pyclient/stix_shifter_dataframe.py:140 | `json_normalize` of a dict: no column holds an object, and every column starts with the given prefix |
| StixFlatten.LookupWellFormed | pyclient/stix_shifter_dataframe.py:92 | `obj['objects']` of a well-formed object is well formed, so its keys are distinct |
| StixFlatten.Emit | pyclient/stix_shifter_dataframe.py:123-142 | the walk over the roots writes exactly the columns of `ForestWrites`, or stops at its first error |
| StixFlatten.EmitTree | pyclient/stix_shifter_dataframe.py:125-142 | the walk over one tree writes exactly the columns of `TreeWrites`, or stops at its first error |
| StixFlatten.TreeFailureStays | pyclient/stix_shifter_dataframe.py:125-142 | an error on an early node is the error of the whole tree |
| StixFlatten.ForestFailureStays | pyclient/stix_shifter_dataframe.py:123-142 | an error in an early tree is the error of the whole forest |
| StixFlatten.TreeCovers | pyclient/stix_shifter_dataframe.py:125-142 | a tree walk that succeeds reads every visited node as an object and keeps every column of every visited node |
| StixFlatten.ForestCovers | pyclient/stix_shifter_dataframe.py:123-142 | a forest walk that succeeds reads every root's type as text, walks every tree without error, and keeps every column of every tree |
| StixFlatten.NodeColumnsEmitted | pyclient/stix_shifter_dataframe.py:121-142 | after a successful walk, every node whose root was walked has all of its columns in the row |
| StixFlatten.TreeFrom | pyclient/stix_shifter_dataframe.py:125-142 | conversely, every column of a tree walk is a column of a walked node |
| StixFlatten.ForestFrom | pyclient/stix_shifter_dataframe.py:123-142 | every column of a forest walk is a column of one of its trees |
| StixFlatten.NodeFrom | pyclient/stix_shifter_dataframe.py:125-142 | every column of a tree comes from an attribute of a node in its pre-order walk |
| StixFlatten.AttrFrom | pyclient/stix_shifter_dataframe.py:133-142 | every column of a node comes from one of its non-reference attributes |
| StixFlatten.ColumnSource | pyclient/stix_shifter_dataframe.py:123-142 | every column the walk writes is `Sourced`: it comes from a non-reference attribute of a node in some root's tree, named under that root's type and the node's path |
| StixForest.NodeTable.PreOrder | pyclient/stix_shifter_dataframe.py:125 | `PreOrderIter(x)` starts with `x` and visits only nodes of the table |
| StixForest.NodeTable.PreOrderFrom | pyclient/stix_shifter_dataframe.py:125 | the walks of the children from the `i`-th on visit only nodes of the table |
| StixForest.NodeTable.PreOrderFromHas | pyclient/stix_shifter_dataframe.py:125 | a child's walk is part of its parent's walk |
| StixForest.NodeTable.PreOrderIn | pyclient/stix_shifter_dataframe.py:125 | the walk from any visited node is part of the enclosing walk |
| StixForest.NodeTable.PreOrderFromIn | pyclient/stix_shifter_dataframe.py:125 | the same for the walks of a node's children |
| StixForest.NodeTable.InRootWalk | pyclient/stix_shifter_dataframe.py:121-125 | every node is in the pre-order walk of its root, so walking every root visits the whole forest |
| StixForest.NodeTable.PathPrefix | pyclient/stix_shifter_dataframe.py:126-131 | the `while tmp.parent` walk builds `Labels(x)`: each non-root node's prefix and a dot, from the root down; a root's path is empty |
| StixColumns.AttrWrites | pyclient/stix_shifter_dataframe.py:133-142 | a reference gives no column; a list gives `attr[i]` for each item `i`, holding that item; a scalar gives the one column `attr` |
| StixColumns.AttrWritesUnderPrefix | pyclient/stix_shifter_dataframe.py:137-142 | every column of an attribute starts with the node's prefix and the attribute's name |
| StixColumns.NodeWritesFromAttrs | pyclient/stix_shifter_dataframe.py:133-134 | every column of a node comes from a non-reference attribute: `_ref`/`_refs` never become columns |
| StixColumns.NodeWritesCover | pyclient/stix_shifter_dataframe.py:133-142 | every column of every attribute of a node is written |
| StixColumns.NodeWritesUnderPrefix | pyclient/stix_shifter_dataframe.py:132-142 | every column of a node starts with `type:` and its path |
| StixFlatten.EmitNode | pyclient/stix_shifter_dataframe.py:133-142 | writing a node attribute by attribute writes exactly `NodeWrites` |
| StixFlatten.EmitAttr | pyclient/stix_shifter_dataframe.py:134-142 | writing one attribute writes exactly `AttrWrites` |
| StixFlatten.EmitList | pyclient/stix_shifter_dataframe.py:135-137 | the item loop writes `attr[0]`, `attr[1]`, … in order |
| StixColumns.SetColumn | pyclient/stix_shifter_dataframe.py:137 | `df[col] = v`: the column holds `v`, every other column is unchanged, and no column moves |
| StixColumns.SetColumnDistinct | pyclient/stix_shifter_dataframe.py:137-142 | setting a column never creates a duplicate column name |
| StixColumns.ApplyDistinct | pyclient/stix_shifter_dataframe.py:122-142 | any sequence of column writes keeps column names distinct |
| StixColumns.ApplyLookup | pyclient/stix_shifter_dataframe.py:122-142 | after the writes, each column holds the last value written to it, or its old value if it was not written |
| StixColumns.LastWrite | pyclient/stix_shifter_dataframe.py:137-142 | the last value written to a column, present exactly when some write names that column |
| StixColumns.LastWriteConcat | pyclient/stix_shifter_dataframe.py:133-142 | a column is written by two batches exactly when one of them writes it |
| StixColumns.ApplyAppend | pyclient/stix_shifter_dataframe.py:133-142 | writing `a` then `b` is writing `a + b` |
| StixColumns.UpdateKeepsColumns | pyclient/stix_shifter_dataframe.py:140 | `DataFrame.update` never adds a column |
| StixColumns.DictAttrDropped | pyclient/stix_shifter_dataframe.py:140 | for a `file` with `hashes: {"MD5": "abc"}`, `update` loses `file:hashes.MD5`, while writing the columns adds it |
| Text.NatToString | pyclient/stix_shifter_dataframe.py:105 | `str(n)`: a non-empty string of decimal digits with no leading zero |
| Text.NatToStringRoundTrip | pyclient/stix_shifter_dataframe.py:105 | reading the decimal text back gives the number |
| Text.NatToStringInjective | pyclient/stix_shifter_dataframe.py:115 | different numbers give different ids and indices |
| Json.Lookup | pyclient/stix_shifter_dataframe.py:17 | `d[key]` is present exactly when some entry has that key, and it is the value of such an entry |
| QRadarClient.CredentialHeaders | cp4s-notebooks/qradar-examples/qradar.py:113-120 | `Accept: application/json` always; with both username and password, exactly the `username`/`password` headers besides it; otherwise exactly the `SEC` token header; with neither, no client |
| QRadarClient.QRadar.constructor | cp4s-notebooks/qradar-examples/qradar.py:106-113 | the settings are stored as given |
| QRadarClient.QRadar.Create | cp4s-notebooks/qradar-examples/qradar.py:112-120 | fails with "No credentials supplied" exactly when `CredentialHeaders` gives none; otherwise a fresh client whose headers are `CredentialHeaders` |
| QRadarClient.QRadar.RequestHeaders | cp4s-notebooks/qradar-examples/qradar.py:126-127 | `_get_headers` returns the client's headers as a value, so a caller's changes to it never reach the client |
| QRadarClient.LimitClause | cp4s-notebooks/qradar-examples/qradar.py:145-146 | present exactly when `limit` is truthy, and then it reads `\n LIMIT ` followed by the limit |
| QRadarClient.TimeClause | cp4s-notebooks/qradar-examples/qradar.py:147-150 | present exactly when a start time is given; START is the start in milliseconds as a float; STOP is the end time, or without one the current time, in whole milliseconds; an end time alone adds nothing |
| QRadarClient.PriorityClause | cp4s-notebooks/qradar-examples/qradar.py:151-152 | present exactly for LOW, NORMAL or HIGH; any other priority is dropped silently |
| QRadarClient.QueryLayout | cp4s-notebooks/qradar-examples/qradar.py:144-152 | the caller's AQL is a prefix of the query, followed by the LIMIT, START/STOP and PARAMETERS clauses in that order, each one directly after the one before |
| QRadarClient.Pieces | cp4s-notebooks/qradar-examples/qradar.py:144-152 | where each of four concatenated strings lies in the result |
| QRadarClient.QRadar.BuildQuery | cp4s-notebooks/qradar-examples/qradar.py:144-152 | the successive `+=` build exactly `Query` |
| QRadarClient.QRadar.StartSearch | cp4s-notebooks/qradar-examples/qradar.py:196-205 | POSTs the query with the client's headers plus the form content type; anything but 201 fails; otherwise the answer's `search_id` |
| QRadarClient.SearchId | cp4s-notebooks/qradar-examples/qradar.py:205 | `.get('search_id')` fails exactly when the answer is not a JSON object |
| QRadarClient.StatusOf | cp4s-notebooks/qradar-examples/qradar.py:210-213 | `.get('status')` fails exactly when the answer is not an object; a non-null status is the answer's `status` entry |
| QRadarClient.Verdict | cp4s-notebooks/qradar-examples/qradar.py:165-168 | a status that stops the poll never means a timeout; CANCELED or ERROR fail with that status; an answer that is not an object breaks the poll |
| QRadarClient.QRadar.Poll | cp4s-notebooks/qradar-examples/qradar.py:160-172 | the outcome and the number of status GETs are exactly `PollRun` from the first clock reading with deadline `start + timeout * 60`; polls only while the clock is before the deadline; CANCELED/ERROR/COMPLETED stop it with their verdict; reaching the deadline deletes the search after the GETs |
| QRadarClient.PollRun | cp4s-notebooks/qradar-examples/qradar.py:160-172 | the `while/else` poll on the values: it stops before the last clock reading, and a failed verdict is always CANCELED or ERROR |
| QRadarClient.Budget | cp4s-notebooks/qradar-examples/qradar.py:226-232 | retries while `attempt <= 10`: at least one GET, and twelve from attempt 0 |
| QRadarClient.Repeated | cp4s-notebooks/qradar-examples/qradar.py:162-163 | `n` copies of the same request |
| QRadarClient.QRadar.FetchResults | cp4s-notebooks/qradar-examples/qradar.py:215-236 | the result and the number of GETs are exactly `FetchRun(attempt, answers)`: at most `Budget(attempt)` GETs, every GET but the last was not 200; the last non-200 fails only when the budget is spent; a 200 answer gives the first value of the JSON object whatever its key, failing on a non-object or an empty object |
| QRadarClient.FetchRun | cp4s-notebooks/qradar-examples/qradar.py:215-236 | `_get_results` on the values: between one and `Budget(attempt)` GETs, and the only failures are "could not load", a non-object or an empty object |
| QRadarClient.ResultOf | cp4s-notebooks/qradar-examples/qradar.py:234-236 | a 200 answer gives a value exactly when it is a non-empty JSON object |
| QRadarClient.QRadar.AwaitResults | cp4s-notebooks/qradar-examples/qradar.py:159-180 | the result and every request after the POST are exactly `Awaited`: the status GETs of `PollRun`, then on COMPLETED the result GETs of `FetchRun` and a DELETE exactly when the fetch succeeded and `cleanup_results` is set; a timeout fails after a DELETE; CANCELED/ERROR fail with no DELETE |
| QRadarClient.AwaitedFacts | cp4s-notebooks/qradar-examples/qradar.py:159-180 | of the outcome `Awaited` describes: every request carries exactly the client's headers; a search that failed on the server is never deleted; a timeout fails after a delete; on success the last request is a delete exactly when `cleanup_results` is set; at most one status GET per clock reading plus twelve result GETs |
| QRadarClient.QRadar.Search | cp4s-notebooks/qradar-examples/qradar.py:129-180 | the first request is the POST of `Query` with the form content type; anything but 201 ends the search; a 201 answer that is not an object fails; otherwise the result and the requests after the POST are exactly `Awaited` for the answer's `search_id` |
| QRadarClient.AppendPlain | cp4s-notebooks/qradar-examples/qradar.py:159-180 | two runs of requests with the client's headers make one |
| SecuredApi.AuthHeaders | pyclient/general.py:44-52 | `Accept: application/json` always plus one `authorization` header: `Basic` and the base64 of `user:pass` (with the key stored) when both are given, else the token verbatim (no key); with neither, no client |
| SecuredApi.SecuredAPI.constructor | pyclient/general.py:37-41 | no URL used yet; headers and key as chosen |
| SecuredApi.SecuredAPI.Create | pyclient/general.py:37-52 | fails with "No credentials supplied" exactly when `AuthHeaders` gives none; otherwise a fresh client with no latest URL and the headers and key of `AuthHeaders` |
| Text.LeadingCount | pyclient/general.py:63 | the length of the leading run of a character |
| Text.Strip | pyclient/general.py:63 | what `strip('/')` leaves neither starts nor ends with `/` |
| Text.StripSlice | pyclient/general.py:63 | `strip` keeps one contiguous slice, starting right after the leading run |
| Text.StripDropsOnly | pyclient/general.py:63 | every character `strip` drops is the stripped character |
| SecuredApi.StripUnslashed | pyclient/general.py:63 | a string without a slash at either end is left alone by `strip('/')` |
| SecuredApi.SecuredAPI.GetUrl | pyclient/general.py:61-65 | a non-empty path sets and returns `strip(endpoint) + '/' + strip(path)`; an empty path returns the stored URL unchanged; it succeeds exactly when the path is given with an endpoint, or a URL is stored, and otherwise fails with the missing endpoint or the missing URL; the headers and key are untouched |
| SecuredApi.SecuredAPI.Request | pyclient/general.py:67-86 | as written: an unresolved URL or an unknown verb sends nothing and fails with that error; otherwise exactly `Tries(statuses, retry)` requests with the verb, and the last status decides (`Served`): below 400 it is the result, otherwise "Could not" naming the last URL; each retry goes to the endpoint joined onto the previous URL (`Trail`); the headers and the API key are never changed |
| SecuredApi.Tries | pyclient/general.py:78-86 | the number of requests: at least one, at most `retry + 1`, every one before the last answered 400 or more, and it stops at the first status below 400 or when the retries run out |
| SecuredApi.ServedCons | pyclient/general.py:78-86 | a failed request followed by a served retry is served with one more try |
| SecuredApi.AttemptedCons | pyclient/general.py:78-86 | a failed request followed by a retry keeps the general bounds of `Attempted` |
| SecuredApi.TrailCons | pyclient/general.py:68-82 | a request to `u` followed by a retry that passes `u` back in extends the as-written URL trail |
| SecuredApi.RetryRejoinsEndpoint | pyclient/general.py:82 | joining the endpoint onto a joined URL puts the endpoint in twice, so a retry never goes to the URL that failed |
| SecuredApi.RejoinedCons | pyclient/general.py:82 | the retry chain of URLs extends by one request |
| SecuredApi.SecuredAPI.RequestCorrected | pyclient/general.py:67-86 | the same exact outcomes as `Request` (`Served` after `Tries` requests, the same errors), but every retry goes to the URL of the first request (`Stayed`); the headers and the API key are never changed |
| SecuredApi.StayedCons | pyclient/general.py:68-82 | a request followed by a retry to the stored URL keeps every request on the first URL |
| SecuredApi.SecuredAPI.Get | pyclient/general.py:88-89 | a GET through the corrected request routine: an unresolved URL fails with nothing sent; otherwise exactly the `Served` outcome of `Tries` requests, all to one URL; the headers and the API key are never changed |
| SecuredApi.SecuredAPI.Post | pyclient/general.py:91-92 | a POST through the corrected request routine: an unresolved URL fails with nothing sent; otherwise exactly the `Served` outcome of `Tries` requests, all to one URL; the headers and the API key are never changed |
| SecuredApi.SecuredAPI.Delete | pyclient/general.py:94-95 | a DELETE through the corrected request routine: an unresolved URL fails with nothing sent; otherwise exactly the `Served` outcome of `Tries` requests, all to one URL; the headers and the API key are never changed |
| SecuredApi.SecuredAPI.GetEndpoint | pyclient/general.py:97-98 | a product path gives and stores `strip(endpoint) + '/' + strip(product)`; an empty one returns the stored URL unchanged, or fails with the missing URL when none (or an empty one) is stored; the headers and key are untouched |

## Left out

- **JSON floats.** `Json.Num` holds an integer only, so a float in a STIX object or a QRadar answer cannot be represented. The modelled code only tests numbers for truthiness and copies them into cells, so integers cover its branches.
- **HTTP transport.** `requests.get`/`post`/`delete`, TLS verification, proxies and `time.sleep` are not modelled. Answers are input sequences of status codes and JSON values, and requests are recorded as values.
- **Logging and printing.** `_log`, `print` and `logging` have no effect on any result.
- **Clock and timestamps.** Wall-clock time and `datetime` timestamps are whole seconds given as integers. The START value is written as the millisecond count followed by `.0`, which is how Python prints the float in the usual case. Precision loss on very large floats is not modelled.
- **QRadarClient.QRadar.Poll requirement.** It requires the last clock reading to be past the deadline: the clock is finite input, and time moves on.
- **`stix_shiter_execute`, `stix2dataframe` and `search_df`.** These are the wrappers over the stix_shifter translation and transmission modules and the pandas plumbing (both classes' `search_df`). They are not modelled. `setup.py` and the `AQL.proxy_model` query constant are not modelled either.
- **pandas.** A frame is one row of named cells. Type coercion, `pd.concat` and everything `json_normalize` does beyond flattening nested dicts into dotted names are left out. `json_normalize` of a dict puts the top-level non-dict keys first and the flattened nested keys after them; the model keeps entry order, which only changes the column order of the seed row. When two nodes write the same column, the last write wins, as with `result[col] = v`.
- **`base64.b64encode`.** It is a function passed in by the caller.
- **Order of the root set.** `set(...)` has no fixed order. The model walks the roots in the order they are first met along `nodes.values()`. The set's contents are proved, not its order.
- **anytree `LoopError`.** A reference that would make a node its own ancestor is an error outcome (`LoopError`), because that is what anytree raises. The model does not take acyclic references as a precondition.
- **Bad ids.** A `_ref`/`_refs` id that is not a string, such as an unhashable list or dict, is reported as `DanglingRef` instead of a `TypeError`.
- **StixFlatten.StixShifterDataFrame.AddConfig** takes dict contents only. A non-dict content, on which Python's `in` behaves differently, is not modelled.
- **StixFlatten.FlattenObjects** and **StixFlatten.FlattenSco** state the node-by-node guarantee (`Emitted`) only for nodes that an id names at the end. The row itself is stated exactly as `ForestWrites` of the roots, and that walk also covers a node whose id was taken over by a clone named `str(len(nodes))`.
- **StixForest.NodeTable.Labels** has no contract of its own: it is the specification that `PathPrefix` is proved against.
- **Retry count.** `_get_results` makes up to twelve GETs from attempt 0, not eleven, because it retries while `attempt <= 10`. The model follows the code.
- **Cleanup.** The code deletes the search cursor only after the results were loaded successfully. A failed fetch leaves it, and the model follows the code.
- StixFlatten.EmitAttr writes a dict-valued attribute with the corrected merge `Apply(row, Normalize(...))`, which adds the `attr.key` columns. The code's `DataFrame.update` adds none (see Findings, with `StixColumns.UpdateExisting` as written). So `EmitNode`, `EmitTree`, `Emit`, `FlattenObjects` and `FlattenSco` describe the corrected flattening for dict-valued attributes.
- SecuredApi.SecuredAPI.Request, `RequestCorrected`, `Get`, `Post` and `Delete` take `retry` as a natural number. In the code, `if retry:` is also true for a negative count, so `retry=-1` with statuses of 400 and more keeps retrying with -2, -3, … until a status below 400 or Python's recursion limit. That input is not modelled.
- StixFlatten.ArrangeObject and StixFlatten.Arrange state the table only when they succeed; their error is stated exactly. On an error `flatten_sco` raises and the half-arranged table is never read, so the state left by a failure part-way through the objects is not stated. For a single attribute it is stated: `ArrangeAttr` and `ArrangeEntry` leave `AttrLeft` of the old table, and `RefsAttr` and `MoveTargets` leave `RefsLeft`.
- **Get/Post/Delete.** `SecuredApi.SecuredAPI.Get`, `Post` and `Delete` delegate to the corrected request routine (see Findings). `Request` models the code as written.

## Findings

| source | as written | input that shows it | evidently intended | confidence | as-written member | corrected member |
|---|---|---|---|---|---|---|
| pyclient/general.py:82 | a retry passes `self.url`, the full joined URL, back in as the service path, so `_get_url` joins the endpoint onto it again | endpoint `https://h/api`, path `x`, first status 500 with `retry=1`: the retry goes to `https://h/api/https://h/api/x` | retry the same URL: pass no service path, so the stored URL is reused | not executed | SecuredApi.SecuredAPI.Request, SecuredApi.RetryRejoinsEndpoint | SecuredApi.SecuredAPI.RequestCorrected |
| pyclient/stix_shifter_dataframe.py:140 | the columns of a dict-valued attribute are merged with `DataFrame.update`, which only changes columns the frame already has, so new `attr.key` columns are never added | a `file` object with `hashes: {"MD5": "abc"}`: no `file:hashes.MD5` column appears | add the columns, as for lists and scalars | not executed | StixColumns.UpdateExisting, StixColumns.DictAttrDropped | StixColumns.Apply, StixColumns.ApplyLookup |
