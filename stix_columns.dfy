/** The columns `flatten_sco` in pyclient/stix_shifter_dataframe.py writes
    into its one-row pandas frame: the frame itself, `json_normalize`'s
    flattening of nested objects, the column names an SCO attribute turns
    into, and the two ways of merging columns into the frame. */
module StixColumns {
  import opened Wrappers
  import opened Text
  import opened Json

  /** A one-row data frame: its columns in order, each with its one cell. */
  type Row = seq<(string, Value)>

  /** Column writes, applied in order. */
  type Writes = seq<(string, Value)>

  /** A frame never has two columns of the same name. */
  ghost predicate DistinctColumns(row: Row) {
    forall i, j :: 0 <= i < j < |row| ==> row[i].0 != row[j].0
  }

  /** `df[col] = v`: overwrites the column where it stands, or adds it at
      the end; no other cell changes and no column moves. */
  function SetColumn(row: Row, col: string, v: Value): (r: Row)
    ensures Lookup(r, col) == Some(v)
    ensures forall c :: c != col ==> Lookup(r, c) == Lookup(row, c)
    ensures |row| <= |r| <= |row| + 1 && forall i :: 0 <= i < |row| ==> r[i].0 == row[i].0
    decreases |row|
  {
    if row == [] then [(col, v)]
    else if row[0].0 == col then [(col, v)] + row[1..]
    else
      var rest := SetColumn(row[1..], col, v);
      assert forall i :: 1 <= i < |row| ==> row[1..][i - 1] == row[i];
      [row[0]] + rest
  }

  /** Setting a column keeps the column names distinct. */
  lemma {:induction false} SetColumnDistinct(row: Row, col: string, v: Value)
    requires DistinctColumns(row)
    ensures DistinctColumns(SetColumn(row, col, v))
    decreases |row|
  {
    if row != [] && row[0].0 != col {
      SetColumnDistinct(row[1..], col, v);
      var rest := SetColumn(row[1..], col, v);
      assert Lookup(row[1..], row[0].0).None?;
      assert SetColumn(row, col, v) == [row[0]] + rest;
    }
  }

  /** The column writes, one after the other. */
  function Apply(row: Row, ws: Writes): Row
    decreases |ws|
  {
    if ws == [] then row else Apply(SetColumn(row, ws[0].0, ws[0].1), ws[1..])
  }

  /** The last value `ws` writes to column `c`, if it writes one. */
  function LastWrite(ws: Writes, c: string): (r: Option<Value>)
    ensures r.None? <==> forall i :: 0 <= i < |ws| ==> ws[i].0 != c
    ensures r.Some? ==> exists i :: 0 <= i < |ws| && ws[i] == (c, r.value)
    decreases |ws|
  {
    if ws == [] then None
    else if ws[|ws| - 1].0 == c then Some(ws[|ws| - 1].1)
    else
      var r := LastWrite(ws[..|ws| - 1], c);
      assert forall i :: 0 <= i < |ws| - 1 ==> ws[..|ws| - 1][i] == ws[i];
      r
  }

  /** Writing `a` then `b` is writing `a + b`. */
  lemma {:induction false} ApplyAppend(row: Row, a: Writes, b: Writes)
    ensures Apply(row, a + b) == Apply(Apply(row, a), b)
    decreases |a|
  {
    if a == [] {
      assert a + b == b;
    } else {
      assert (a + b)[0] == a[0] && (a + b)[1..] == a[1..] + b;
      ApplyAppend(SetColumn(row, a[0].0, a[0].1), a[1..], b);
    }
  }

  /** One more write on the end sets one more column. */
  lemma ApplySnoc(row: Row, ws: Writes, c: string, v: Value)
    ensures Apply(row, ws + [(c, v)]) == SetColumn(Apply(row, ws), c, v)
  {
    ApplyAppend(row, ws, [(c, v)]);
  }

  /** Each cell holds the last value written to its column, or the old one
      when the column was not written: so the frame keeps all its columns
      and gains exactly the written ones. */
  lemma {:induction false} ApplyLookup(row: Row, ws: Writes, c: string)
    ensures Lookup(Apply(row, ws), c) == if LastWrite(ws, c).Some? then LastWrite(ws, c) else Lookup(row, c)
    decreases |ws|
  {
    if ws != [] {
      var last := ws[|ws| - 1];
      var init := ws[..|ws| - 1];
      assert ws == init + [last];
      ApplyAppend(row, init, [last]);
      ApplyLookup(row, init, c);
    }
  }

  /** Writes never give a frame two columns of the same name. */
  lemma {:induction false} ApplyDistinct(row: Row, ws: Writes)
    requires DistinctColumns(row)
    ensures DistinctColumns(Apply(row, ws))
    decreases |ws|
  {
    if ws != [] {
      SetColumnDistinct(row, ws[0].0, ws[0].1);
      ApplyDistinct(SetColumn(row, ws[0].0, ws[0].1), ws[1..]);
    }
  }

  /** `json_normalize` of an object, from its `i`-th key on: nested objects
      are flattened into `parent.child` names (an empty one leaves
      nothing), every other value is kept as it is. */
  function NormalizeFrom(d: Value, prefix: string, i: nat): (r: Writes)
    requires d.Dict? && i <= |d.entries|
    ensures forall j :: 0 <= j < |r| ==> !r[j].1.Dict?
    ensures forall j :: 0 <= j < |r| ==> |prefix| <= |r[j].0| && r[j].0[..|prefix|] == prefix
    decreases d, |d.entries| - i
  {
    if i == |d.entries| then []
    else
      var (k, v) := d.entries[i];
      var head := if v.Dict? then NormalizeFrom(v, prefix + k + ".", 0) else [(prefix + k, v)];
      assert forall j :: 0 <= j < |head| ==> head[j].0[..|prefix|] == prefix by {
        forall j | 0 <= j < |head|
          ensures head[j].0[..|prefix|] == prefix
        {
          if v.Dict? {
            assert head[j].0[..|prefix + k + "."|] == prefix + k + ".";
            assert (prefix + k + ".")[..|prefix|] == prefix;
          }
        }
      }
      head + NormalizeFrom(d, prefix, i + 1)
  }

  /** `json_normalize` of an object's entries under a name prefix. */
  function Normalize(entries: seq<(string, Value)>, prefix: string): Writes {
    NormalizeFrom(Dict(entries), prefix, 0)
  }

  /** `attr.endswith('_ref') or attr.endswith('_refs')`. */
  predicate IsRefAttr(attr: string) {
    EndsWith(attr, "_ref") || EndsWith(attr, "_refs")
  }

  /** The columns one SCO attribute turns into under a column prefix: none
      for a reference, `attr[i]` for each item of a list, `attr.k` for the
      flattened keys of an object, and `attr` itself for anything else. */
  function AttrWrites(prefix: string, attr: string, val: Value): (r: Writes)
    ensures IsRefAttr(attr) ==> r == []
    ensures !IsRefAttr(attr) && !val.List? && !val.Dict? ==> r == [(prefix + attr, val)]
    ensures !IsRefAttr(attr) && val.List? ==>
              |r| == |val.items| && forall i :: 0 <= i < |r| ==> r[i] == (prefix + attr + "[" + NatToString(i) + "]", val.items[i])
  {
    if IsRefAttr(attr) then []
    else match val
      case List(items) => seq(|items|, i requires 0 <= i < |items| => (prefix + attr + "[" + NatToString(i) + "]", items[i]))
      case Dict(entries) => Normalize(entries, prefix + attr + ".")
      case _ => [(prefix + attr, val)]
  }

  /** Every column of an attribute starts with the prefix and the attribute's name. */
  lemma AttrWritesUnderPrefix(prefix: string, attr: string, val: Value, i: nat)
    requires i < |AttrWrites(prefix, attr, val)|
    ensures var c := AttrWrites(prefix, attr, val)[i].0;
            |prefix + attr| <= |c| && c[..|prefix + attr|] == prefix + attr
  {
    var r := AttrWrites(prefix, attr, val);
    if val.Dict? {
      assert r[i].0[..|prefix + attr + "."|] == prefix + attr + ".";
      assert r[i].0[..|prefix + attr|] == (prefix + attr + ".")[..|prefix + attr|];
    }
  }

  /** The columns all attributes of one SCO turn into, in attribute order. */
  function NodeWrites(prefix: string, attrs: seq<(string, Value)>): (r: Writes)
    decreases |attrs|
  {
    if attrs == [] then []
    else
      var head := AttrWrites(prefix, attrs[0].0, attrs[0].1);
      head + NodeWrites(prefix, attrs[1..])
  }

  /** Column `c` is one of the columns of the non-reference attribute `a`. */
  ghost predicate WrittenBy(prefix: string, a: (string, Value), c: string) {
    !IsRefAttr(a.0) && LastWrite(AttrWrites(prefix, a.0, a.1), c).Some?
  }

  /** A column an SCO gives rise to comes from one of its non-reference
      attributes: references never become columns. */

  lemma {:induction false} NodeWritesFromAttrs(prefix: string, attrs: seq<(string, Value)>, c: string)
    requires LastWrite(NodeWrites(prefix, attrs), c).Some?
    ensures exists j :: 0 <= j < |attrs| && WrittenBy(prefix, attrs[j], c)
    decreases |attrs|
  {
    var head := AttrWrites(prefix, attrs[0].0, attrs[0].1);
    var tail := NodeWrites(prefix, attrs[1..]);
    assert NodeWrites(prefix, attrs) == head + tail;
    LastWriteConcat(head, tail, c);
    if LastWrite(head, c).None? {
      NodeWritesFromAttrs(prefix, attrs[1..], c);
      var j: int :| 0 <= j < |attrs[1..]| && WrittenBy(prefix, attrs[1..][j], c);
      assert attrs[1..][j] == attrs[j + 1];
    } else {
      assert WrittenBy(prefix, attrs[0], c);
    }
  }

  /** Every column of every non-reference attribute is written. */
  lemma {:induction false} NodeWritesCover(prefix: string, attrs: seq<(string, Value)>, j: nat, c: string)
    requires j < |attrs| && LastWrite(AttrWrites(prefix, attrs[j].0, attrs[j].1), c).Some?
    ensures LastWrite(NodeWrites(prefix, attrs), c).Some?
    decreases |attrs|
  {
    var head := AttrWrites(prefix, attrs[0].0, attrs[0].1);
    var tail := NodeWrites(prefix, attrs[1..]);
    assert NodeWrites(prefix, attrs) == head + tail;
    LastWriteConcat(head, tail, c);
    if j == 0 {
      assert LastWrite(head, c).Some?;
    } else {
      assert attrs[1..][j - 1] == attrs[j];
      NodeWritesCover(prefix, attrs[1..], j - 1, c);
      assert LastWrite(tail, c).Some?;
    }
  }

  /** Every column an SCO writes lies under that SCO's path prefix. */
  lemma NodeWritesUnderPrefix(prefix: string, attrs: seq<(string, Value)>, c: string)
    requires LastWrite(NodeWrites(prefix, attrs), c).Some?
    ensures |prefix| <= |c| && c[..|prefix|] == prefix
  {
    NodeWritesFromAttrs(prefix, attrs, c);
    var j :| 0 <= j < |attrs| && WrittenBy(prefix, attrs[j], c);
    var pa := prefix + attrs[j].0;
    var w := AttrWrites(prefix, attrs[j].0, attrs[j].1);
    var i :| 0 <= i < |w| && w[i].0 == c;
    AttrWritesUnderPrefix(prefix, attrs[j].0, attrs[j].1, i);
    PrefixOfPrefix(c, prefix, attrs[j].0);
  }

  /** A string that starts with `p + a` starts with `p`. */
  lemma PrefixOfPrefix(c: string, p: string, a: string)
    requires |p + a| <= |c| && c[..|p + a|] == p + a
    ensures |p| <= |c| && c[..|p|] == p
  {
    assert c[..|p|] == c[..|p + a|][..|p|];
  }

  /** A column is written by two batches of writes exactly when one of
      them writes it. */
  lemma LastWriteConcat(a: Writes, b: Writes, c: string)
    ensures LastWrite(a + b, c).Some? <==> LastWrite(a, c).Some? || LastWrite(b, c).Some?
  {
    var ab := a + b;
    if LastWrite(a, c).Some? {
      var i :| 0 <= i < |a| && a[i].0 == c;
      assert ab[i] == a[i];
    }
    if LastWrite(b, c).Some? {
      var i :| 0 <= i < |b| && b[i].0 == c;
      assert ab[|a| + i] == b[i];
    }
    if LastWrite(ab, c).Some? {
      var i :| 0 <= i < |ab| && ab[i].0 == c;
      if i < |a| {
        assert a[i] == ab[i];
      } else {
        assert b[i - |a|] == ab[i];
      }
    }
  }

  /** `DataFrame.update` as pandas does it: only columns the frame already
      has are touched, and a null never overwrites a cell. */
  function UpdateExisting(row: Row, ws: Writes): Row
    decreases |ws|
  {
    if ws == [] then row
    else
      var (c, v) := ws[0];
      var next := if Lookup(row, c).Some? && v != Null then SetColumn(row, c, v) else row;
      UpdateExisting(next, ws[1..])
  }

  /** `DataFrame.update` never adds a column. */
  lemma {:induction false} UpdateKeepsColumns(row: Row, ws: Writes, c: string)
    ensures Lookup(UpdateExisting(row, ws), c).Some? <==> Lookup(row, c).Some?
    decreases |ws|
  {
    if ws != [] {
      var (c', v) := ws[0];
      var next := if Lookup(row, c').Some? && v != Null then SetColumn(row, c', v) else row;
      UpdateKeepsColumns(next, ws[1..], c);
    }
  }

  /** An SCO with an object-valued attribute, as in a `file` with
      `hashes: {"MD5": "abc"}`: merging its normalized columns with
      `DataFrame.update` loses `file:hashes.MD5`, while writing the columns
      adds it. */
  lemma DictAttrDropped()
    ensures var row: Row := [("type", Str("observed-data"))];
            var ws := AttrWrites("file:", "hashes", Dict([("MD5", Str("abc"))]));
            ws == [("file:hashes.MD5", Str("abc"))]
            && Lookup(UpdateExisting(row, ws), "file:hashes.MD5").None?
            && Lookup(Apply(row, ws), "file:hashes.MD5") == Some(Str("abc"))
  {
    var row: Row := [("type", Str("observed-data"))];
    var d := Dict([("MD5", Str("abc"))]);
    assert !EndsWith("hashes", "_ref") && !EndsWith("hashes", "_refs");
    assert "file:" + "hashes" + "." == "file:hashes.";
    assert "file:hashes." + "MD5" == "file:hashes.MD5";
    assert d.entries[0] == ("MD5", Str("abc"));
    assert NormalizeFrom(d, "file:hashes.", 1) == [];
    assert NormalizeFrom(d, "file:hashes.", 0) == [("file:hashes.MD5", Str("abc"))] + NormalizeFrom(d, "file:hashes.", 1);
    var ws := AttrWrites("file:", "hashes", d);
    assert ws == [("file:hashes.MD5", Str("abc"))];
    UpdateKeepsColumns(row, ws, "file:hashes.MD5");
    ApplyLookup(row, ws, "file:hashes.MD5");
  }
}
