/** The annotated table (wtu/table.py): a column-major grid of strings overlaid with a map from
    region keys to annotation lists, with lazily created regions and cell/row/column views. */
module Tables {
  import opened Common
  import opened Text
  import opened Annotations

  // ---------------------------------------------------------------- region keys

  datatype Region = Whole | Column(col: int) | Row(row: int) | Cell(col: int, row: int)

  /** The key of a region: ":" for the table, "c:" for a column, ":r" for a row, "c:r" for a cell. */
  function Key(g: Region): string
  {
    match g
    case Whole => ":"
    case Column(c) => FormatInt(c) + ":"
    case Row(r) => ":" + FormatInt(r)
    case Cell(c, r) => FormatInt(c) + ":" + FormatInt(r)
  }

  function ColumnPart(g: Region): string
  {
    match g
    case Whole => ""
    case Column(c) => FormatInt(c)
    case Row(_) => ""
    case Cell(c, _) => FormatInt(c)
  }

  function RowPart(g: Region): string
  {
    match g
    case Whole => ""
    case Column(_) => ""
    case Row(r) => FormatInt(r)
    case Cell(_, r) => FormatInt(r)
  }

  lemma NoColonInFormatInt(i: int)
    ensures forall k :: 0 <= k < |FormatInt(i)| ==> FormatInt(i)[k] != ':'
  {
  }

  /** A key is its column part, ':' and its row part; neither part contains ':'. */
  lemma {:induction false} KeyShape(g: Region)
    ensures Key(g) == ColumnPart(g) + ":" + RowPart(g)
    ensures forall k :: 0 <= k < |ColumnPart(g)| ==> ColumnPart(g)[k] != ':'
  {
    match g {
      case Whole =>
      case Column(c) => NoColonInFormatInt(c);
      case Row(r) =>
      case Cell(c, r) => NoColonInFormatInt(c);
    }
  }

  /** "a:b" determines a and b when a holds no ':'. */
  lemma SplitUnique(a: string, b: string, a': string, b': string)
    requires a + ":" + b == a' + ":" + b'
    requires forall k :: 0 <= k < |a| ==> a[k] != ':'
    requires forall k :: 0 <= k < |a'| ==> a'[k] != ':'
    ensures a == a' && b == b'
  {
    var s, s' := a + ":" + b, a' + ":" + b';
    FirstColon(a, b);
    FirstColon(a', b');
    assert a == s[..|a|] && a' == s'[..|a|];
    assert b == s[|a| + 1..] && b' == s'[|a| + 1..];
  }

  lemma FirstColon(a: string, b: string)
    requires forall k :: 0 <= k < |a| ==> a[k] != ':'
    ensures FirstIndexOf(a + ":" + b, ':') == |a|
  {
    var s := a + ":" + b;
    assert s[|a|] == ':';
    assert forall i :: 0 <= i < |a| ==> s[i] == a[i];
  }

  /** Distinct regions have distinct keys. */
  lemma {:induction false} KeyInjective(g: Region, h: Region)
    requires Key(g) == Key(h)
    ensures g == h
  {
    KeyShape(g);
    KeyShape(h);
    SplitUnique(ColumnPart(g), RowPart(g), ColumnPart(h), RowPart(h));
    match g {
      case Whole =>
      case Column(c) =>
        if h.Column? || h.Cell? { FormatIntInjective(c, h.col); }
      case Row(r) =>
        if h.Row? || h.Cell? { FormatIntInjective(r, h.row); }
      case Cell(c, r) =>
        if h.Cell? { FormatIntInjective(c, h.col); FormatIntInjective(r, h.row); }
    }
  }

  // ---------------------------------------------------------------- the annotation map

  /** The record's `annotations` dictionary; loaded records may hold keys of any shape. */
  type Store = map<string, seq<Annotation>>

  /** The list stored under `k`, or the empty list that reading it would create. */
  function Get(m: Store, k: string): seq<Annotation>
  {
    if k in m then m[k] else []
  }

  /** Reading key `k`: it is created with an empty list only if it is absent. */
  function Touch(m: Store, k: string): (m': Store)
    ensures m'.Keys == m.Keys + {k}
    ensures forall j :: j in m ==> m'[j] == m[j]
    ensures m'[k] == Get(m, k)
  {
    if k in m then m else m[k := []]
  }

  /** Appending `xs` under key `k`: the key is created if needed and keeps its old list as a prefix. */
  function AppendTo(m: Store, k: string, xs: seq<Annotation>): Store
  {
    m[k := Get(m, k) + xs]
  }

  /** Appending nothing under an existing key changes nothing. */
  lemma AppendNothing(m: Store, k: string)
    requires k in m
    ensures AppendTo(m, k, []) == m
  {
    assert Get(m, k) + [] == m[k];
  }

  /** Appending `adds[i]` under key `ks[i]`, for each i in order. */
  function AppendAll(m: Store, ks: seq<string>, adds: seq<seq<Annotation>>): Store
    requires |ks| == |adds|
    decreases |ks|
  {
    if ks == [] then m
    else AppendTo(AppendAll(m, ks[..|ks| - 1], adds[..|adds| - 1]), ks[|ks| - 1], adds[|adds| - 1])
  }

  /** Appending creates exactly the keys appended to. */
  lemma {:induction false} AppendAllKeys(m: Store, ks: seq<string>, adds: seq<seq<Annotation>>)
    requires |ks| == |adds|
    ensures AppendAll(m, ks, adds).Keys == m.Keys + set k | k in ks
    decreases |ks|
  {
    if ks != [] {
      var n := |ks| - 1;
      AppendAllKeys(m, ks[..n], adds[..n]);
      assert ks == ks[..n] + [ks[n]];
    }
  }

  /** No element occurs twice. */
  predicate Distinct<T(==)>(s: seq<T>) {
    forall i, j :: 0 <= i < j < |s| ==> s[i] != s[j]
  }

  /** When the keys are distinct, each of them ends with its old list followed by its own additions. */
  lemma {:induction false} AppendAllListed(m: Store, ks: seq<string>, adds: seq<seq<Annotation>>, i: nat)
    requires |ks| == |adds| && i < |ks| && Distinct(ks)
    ensures Get(AppendAll(m, ks, adds), ks[i]) == Get(m, ks[i]) + adds[i]
    decreases |ks|
  {
    var n := |ks| - 1;
    if i < n {
      AppendAllListed(m, ks[..n], adds[..n], i);
    } else {
      assert ks[n] !in ks[..n] by {
        forall j | 0 <= j < n ensures ks[..n][j] != ks[n] { assert ks[..n][j] == ks[j]; }
      }
      AppendAllUnlisted(m, ks[..n], adds[..n], ks[n]);
    }
  }

  /** Keys not appended to are unchanged. */
  lemma {:induction false} AppendAllUnlisted(m: Store, ks: seq<string>, adds: seq<seq<Annotation>>, k: string)
    requires |ks| == |adds| && k !in ks
    ensures Get(AppendAll(m, ks, adds), k) == Get(m, k)
    decreases |ks|
  {
    if ks != [] {
      var n := |ks| - 1;
      assert k !in ks[..n];
      AppendAllUnlisted(m, ks[..n], adds[..n], k);
    }
  }

  /** What the appends under keys `ks` add to key `k`, in order. */
  function Gathered(ks: seq<string>, adds: seq<seq<Annotation>>, k: string): seq<Annotation>
    requires |ks| == |adds|
    decreases |ks|
  {
    if ks == [] then []
    else Gathered(ks[..|ks| - 1], adds[..|adds| - 1], k) + (if ks[|ks| - 1] == k then adds[|adds| - 1] else [])
  }

  /** Every key ends with its old list followed by everything appended under it, in order. */
  lemma {:induction false} AppendAllGet(m: Store, ks: seq<string>, adds: seq<seq<Annotation>>, k: string)
    requires |ks| == |adds|
    ensures Get(AppendAll(m, ks, adds), k) == Get(m, k) + Gathered(ks, adds, k)
    decreases |ks|
  {
    if ks != [] {
      var n := |ks| - 1;
      AppendAllGet(m, ks[..n], adds[..n], k);
      var g := Gathered(ks[..n], adds[..n], k);
      var tail := if ks[n] == k then adds[n] else [];
      assert Get(m, k) + g + tail == Get(m, k) + (g + tail);
    }
  }

  /** Whatever is gathered under `k` was appended under `k`. */
  lemma {:induction false} GatheredFrom(ks: seq<string>, adds: seq<seq<Annotation>>, k: string, a: Annotation)
    requires |ks| == |adds| && a in Gathered(ks, adds, k)
    ensures exists i :: 0 <= i < |ks| && ks[i] == k && a in adds[i]
    decreases |ks|
  {
    var n := |ks| - 1;
    if a in Gathered(ks[..n], adds[..n], k) {
      GatheredFrom(ks[..n], adds[..n], k, a);
      var i :| 0 <= i < n && ks[..n][i] == k && a in adds[..n][i];
      assert ks[i] == k && adds[i] == adds[..n][i];
    } else {
      assert ks[n] == k && a in adds[n];
    }
  }

  /** Everything appended under `k` is gathered under `k`. */
  lemma {:induction false} GatheredHas(ks: seq<string>, adds: seq<seq<Annotation>>, i: nat, a: Annotation)
    requires |ks| == |adds| && i < |ks| && a in adds[i]
    ensures a in Gathered(ks, adds, ks[i])
    decreases |ks|
  {
    var n := |ks| - 1;
    if i < n {
      assert ks[..n][i] == ks[i] && adds[..n][i] == adds[i];
      GatheredHas(ks[..n], adds[..n], i, a);
    }
  }

  /** Reading each key of `ks` in order. */
  function TouchAll(m: Store, ks: seq<string>): (m': Store)
    ensures m'.Keys == m.Keys + set k | k in ks
    ensures forall k :: Get(m', k) == Get(m, k)
    decreases |ks|
  {
    if ks == [] then m
    else
      var m0 := TouchAll(m, ks[..|ks| - 1]);
      assert ks == ks[..|ks| - 1] + [ks[|ks| - 1]];
      Touch(m0, ks[|ks| - 1])
  }

  /** Reading one more key of a read loop. */
  lemma TouchNext(m: Store, ks: seq<string>, c: nat)
    requires c < |ks|
    ensures TouchAll(m, ks[..c + 1]) == Touch(TouchAll(m, ks[..c]), ks[c])
  {
    assert ks[..c + 1][..c] == ks[..c];
  }

  /** `dump`: the regions with a non-empty list, each unchanged. */
  function Compact(m: Store): (m': Store)
    ensures forall k :: k in m' <==> k in m && m[k] != []
    ensures forall k :: k in m' ==> m'[k] == m[k]
  {
    map k | k in m && m[k] != [] :: m[k]
  }

  lemma CompactIdempotent(m: Store)
    ensures Compact(Compact(m)) == Compact(m)
  {
  }

  // ---------------------------------------------------------------- index enumeration

  /** `TableColumn.indices`: the cells of column `col`, row by row. */
  function ColumnCells(col: int, numRows: nat): (gs: seq<Region>)
    ensures |gs| == numRows && forall r :: 0 <= r < numRows ==> gs[r] == Cell(col, r)
  {
    seq(numRows, r requires 0 <= r < numRows => Cell(col, r))
  }

  /** `TableRow.indices`: the cells of row `row`, column by column. */
  function RowCells(row: int, numCols: nat): (gs: seq<Region>)
    ensures |gs| == numCols && forall c :: 0 <= c < numCols ==> gs[c] == Cell(c, row)
    ensures Distinct(gs)
  {
    seq(numCols, c requires 0 <= c < numCols => Cell(c, row))
  }

  /** `TableCellSet.indices`: all columns, and within each column all rows; exactly the cells of
      the grid. */
  function CellRegions(numCols: nat, numRows: nat): (gs: seq<Region>)
    ensures |gs| == numCols * numRows
    ensures forall g :: g in gs <==> g.Cell? && 0 <= g.col < numCols && 0 <= g.row < numRows
    ensures forall i :: 0 <= i < |gs| ==> gs[i].Cell? && 0 <= gs[i].col < numCols && 0 <= gs[i].row < numRows
  {
    if numCols == 0 then []
    else
      var gs := CellRegions(numCols - 1, numRows) + ColumnCells(numCols - 1, numRows);
      assert forall g: Region :: g.Cell? && g.col == numCols - 1 && 0 <= g.row < numRows ==> g == ColumnCells(numCols - 1, numRows)[g.row];
      assert |gs| == (numCols - 1) * numRows + numRows;
      gs
  }

  /** Column-major order: a cell comes before every cell to its right and every cell below it
      in its own column. */
  lemma {:induction false} CellRegionsOrdered(numCols: nat, numRows: nat, i: nat, j: nat)
    requires i < j < numCols * numRows
    ensures var gs := CellRegions(numCols, numRows);
      gs[i].col < gs[j].col || (gs[i].col == gs[j].col && gs[i].row < gs[j].row)
    decreases numCols
  {
    var gs := CellRegions(numCols, numRows);
    var prefix := CellRegions(numCols - 1, numRows);
    var last := ColumnCells(numCols - 1, numRows);
    assert gs == prefix + last;
    if j < |prefix| {
      CellRegionsOrdered(numCols - 1, numRows, i, j);
      assert gs[i] == prefix[i] && gs[j] == prefix[j];
    } else if i < |prefix| {
      assert gs[i] == prefix[i] && prefix[i] in prefix;
      assert gs[j] == last[j - |prefix|];
    } else {
      assert gs[i] == last[i - |prefix|] && gs[j] == last[j - |prefix|];
    }
  }

  /** Column-major enumeration visits every cell exactly once. */
  lemma CellRegionsDistinct(numCols: nat, numRows: nat)
    ensures Distinct(CellRegions(numCols, numRows))
  {
    var gs := CellRegions(numCols, numRows);
    forall i, j | 0 <= i < j < |gs| ensures gs[i] != gs[j] {
      CellRegionsOrdered(numCols, numRows, i, j);
    }
  }

  // ---------------------------------------------------------------- conditions (`where`)

  /** What a condition sees of a cell: its position, content and annotation list. */
  datatype CellView = CellView(col: int, row: int, content: string, annotations: seq<Annotation>)

  predicate AllHold<E>(conds: seq<E -> bool>, e: E)
  {
    forall i :: 0 <= i < |conds| ==> conds[i](e)
  }

  /** `QueryableSet.__iter__`: the elements, in index order, on which every condition holds. */
  function Select<E(!new)>(elems: seq<E>, conds: seq<E -> bool>): (r: seq<E>)
    ensures |r| <= |elems|
    ensures forall e :: e in r <==> e in elems && AllHold(conds, e)
  {
    if elems == [] then []
    else
      var rest := Select(elems[1..], conds);
      assert forall e :: e in elems <==> e == elems[0] || e in elems[1..];
      (if AllHold(conds, elems[0]) then [elems[0]] else []) + rest
  }

  lemma {:induction false} SelectNoConditions<E(!new)>(elems: seq<E>)
    ensures Select(elems, []) == elems
  {
    if elems != [] {
      SelectNoConditions(elems[1..]);
      assert elems == [elems[0]] + elems[1..];
    }
  }

  lemma AllHoldConcat<E>(conds: seq<E -> bool>, more: seq<E -> bool>, e: E)
    ensures AllHold(conds + more, e) <==> AllHold(conds, e) && AllHold(more, e)
  {
    if AllHold(conds + more, e) {
      forall i | 0 <= i < |more| ensures more[i](e) {
        assert (conds + more)[|conds| + i] == more[i];
      }
      forall i | 0 <= i < |conds| ensures conds[i](e) {
        assert (conds + more)[i] == conds[i];
      }
    }
  }

  /** `where(*more)` keeps the existing conditions and adds the new ones: selecting with the
      concatenation is selecting with the old conditions, then with the new ones. */
  lemma {:induction false} WhereConjoins<E(!new)>(elems: seq<E>, conds: seq<E -> bool>, more: seq<E -> bool>)
    ensures Select(elems, conds + more) == Select(Select(elems, conds), more)
  {
    if elems != [] {
      var e := elems[0];
      AllHoldConcat(conds, more, e);
      WhereConjoins(elems[1..], conds, more);
      var s1 := Select(elems[1..], conds);
      var lhs1 := Select(elems[1..], conds + more);
      assert lhs1 == Select(s1, more);
      if AllHold(conds, e) {
        var s := [e] + s1;
        assert Select(elems, conds) == s;
        assert s[0] == e && s[1..] == s1;
        assert Select(s, more) == (if AllHold(more, e) then [e] else []) + Select(s1, more);
      } else {
        assert Select(elems, conds) == s1;
      }
    }
  }

  /** The annotation lists of outcomes that all succeeded. */
  function Values(outs: seq<Result<seq<Annotation>>>): (vs: seq<seq<Annotation>>)
    requires forall i :: 0 <= i < |outs| ==> outs[i].Ok?
    ensures |vs| == |outs| && forall i :: 0 <= i < |outs| ==> vs[i] == outs[i].value
  {
    seq(|outs|, i requires 0 <= i < |outs| => outs[i].value)
  }

  lemma TakeOneMore<T>(s: seq<T>, i: nat)
    requires i < |s|
    ensures s[..i + 1] == s[..i] + [s[i]]
  {
  }

  lemma ValuesSnoc(outs: seq<Result<seq<Annotation>>>, i: nat)
    requires i < |outs| && forall j :: 0 <= j <= i ==> outs[j].Ok?
    ensures Values(outs[..i + 1]) == Values(outs[..i]) + [outs[i].value]
  {
  }

  /** Appending under one more key extends the fold by one step. */
  lemma AppendAllSnoc(m: Store, ks: seq<string>, adds: seq<seq<Annotation>>, k: string, xs: seq<Annotation>)
    requires |ks| == |adds|
    ensures AppendAll(m, ks + [k], adds + [xs]) == AppendTo(AppendAll(m, ks, adds), k, xs)
  {
    assert (ks + [k])[..|ks|] == ks && (adds + [xs])[..|adds|] == adds;
  }

  /** One step of an annotation loop: reading key `ks[i]` and then appending its outcome extends the fold. */
  lemma AnnotateStep(m: Store, ks: seq<string>, outs: seq<Result<seq<Annotation>>>, i: nat)
    requires |ks| == |outs| && i < |outs| && forall j :: 0 <= j <= i ==> outs[j].Ok?
    ensures AppendTo(Touch(AppendAll(m, ks[..i], Values(outs[..i])), ks[i]), ks[i], outs[i].value)
         == AppendAll(m, ks[..i + 1], Values(outs[..i + 1]))
  {
    ValuesSnoc(outs, i);
    TakeOneMore(ks, i);
    AppendAllSnoc(m, ks[..i], Values(outs[..i]), ks[i], outs[i].value);
  }

  /** What `f` makes of each input. */
  function Outcomes<I>(f: I -> Result<seq<Annotation>>, inputs: seq<I>): (outs: seq<Result<seq<Annotation>>>)
    ensures |outs| == |inputs| && forall i :: 0 <= i < |inputs| ==> outs[i] == f(inputs[i])
  {
    seq(|inputs|, i requires 0 <= i < |inputs| => f(inputs[i]))
  }

  /** The keys of the regions `gs`, in order. */
  function KeysOf(gs: seq<Region>): (ks: seq<string>)
    ensures |ks| == |gs| && forall i :: 0 <= i < |gs| ==> ks[i] == Key(gs[i])
  {
    seq(|gs|, i requires 0 <= i < |gs| => Key(gs[i]))
  }

  /** Distinct regions have distinct keys, and a region is listed exactly when its key is. */
  lemma KeysOfDistinct(gs: seq<Region>)
    requires Distinct(gs)
    ensures Distinct(KeysOf(gs))
  {
    var ks := KeysOf(gs);
    forall i, j | 0 <= i < j < |ks| ensures ks[i] != ks[j] {
      if ks[i] == ks[j] { KeyInjective(gs[i], gs[j]); }
    }
  }

  lemma KeysOfMember(gs: seq<Region>, g: Region)
    ensures Key(g) in KeysOf(gs) <==> g in gs
  {
    var ks := KeysOf(gs);
    if Key(g) in ks {
      var i :| 0 <= i < |ks| && ks[i] == Key(g);
      KeyInjective(gs[i], g);
    }
    if g in gs {
      var i :| 0 <= i < |gs| && gs[i] == g;
      assert ks[i] == Key(g);
    }
  }

  /** The keys of the cells, in `TableCellSet.indices` order: no key occurs twice, and a region's
      key is among them exactly when the region is a cell of the grid. */
  function CellKeys(numCols: nat, numRows: nat): (ks: seq<string>)
    ensures |ks| == numCols * numRows && Distinct(ks)
    ensures forall i :: 0 <= i < |ks| ==> ks[i] == Key(CellRegions(numCols, numRows)[i])
  {
    CellRegionsDistinct(numCols, numRows);
    KeysOfDistinct(CellRegions(numCols, numRows));
    KeysOf(CellRegions(numCols, numRows))
  }

  lemma CellKeysMember(numCols: nat, numRows: nat, g: Region)
    ensures Key(g) in CellKeys(numCols, numRows) <==> g.Cell? && 0 <= g.col < numCols && 0 <= g.row < numRows
  {
    KeysOfMember(CellRegions(numCols, numRows), g);
  }

  /** Appending each successful outcome under its own region's key, for distinct regions: each
      region ends with its old list followed by its outcome, every other key is unchanged, and
      the regions' keys exist. */
  lemma RegionsAnnotated(m: Store, gs: seq<Region>, outs: seq<Result<seq<Annotation>>>)
    requires Distinct(gs) && |gs| == |outs| && forall i :: 0 <= i < |outs| ==> outs[i].Ok?
    ensures forall i :: 0 <= i < |gs| ==>
      Get(AppendAll(m, KeysOf(gs), Values(outs)), Key(gs[i])) == Get(m, Key(gs[i])) + outs[i].value
    ensures forall key :: key !in KeysOf(gs) ==> Get(AppendAll(m, KeysOf(gs), Values(outs)), key) == Get(m, key)
    ensures AppendAll(m, KeysOf(gs), Values(outs)).Keys == m.Keys + set key | key in KeysOf(gs)
  {
    var ks := KeysOf(gs);
    KeysOfDistinct(gs);
    AppendAllKeys(m, ks, Values(outs));
    forall i | 0 <= i < |gs|
      ensures Get(AppendAll(m, ks, Values(outs)), Key(gs[i])) == Get(m, Key(gs[i])) + outs[i].value
    {
      AppendAllListed(m, ks, Values(outs), i);
    }
    forall key | key !in ks ensures Get(AppendAll(m, ks, Values(outs)), key) == Get(m, key) {
      AppendAllUnlisted(m, ks, Values(outs), key);
    }
  }

  /** Store `m'` is `m` after every cell of the grid gained what `f` made of its content: the
      cells' lists are extended, every other key keeps its list, and the cells' keys exist. */
  ghost predicate CellsAnnotated(m: Store, m': Store, relation: seq<seq<string>>, numCols: nat, numRows: nat,
                           f: string -> Result<seq<Annotation>>)
    requires numCols <= |relation| && forall c :: 0 <= c < numCols ==> numRows <= |relation[c]|
  {
    && (forall c, r :: 0 <= c < numCols && 0 <= r < numRows ==>
          f(relation[c][r]).Ok? && Get(m', Key(Cell(c, r))) == Get(m, Key(Cell(c, r))) + f(relation[c][r]).value)
    && (forall key :: key !in CellKeys(numCols, numRows) ==> Get(m', key) == Get(m, key))
    && m'.Keys == m.Keys + set key | key in CellKeys(numCols, numRows)
  }

  /** Store `m'` is `m` after a loop over keys `ks` whose outcomes are `outs` stopped at index `k`
      with error `e`: the keys before `k` gained their outcomes and key `ks[k]` exists. */
  ghost predicate StoppedAt(m: Store, m': Store, ks: seq<string>, outs: seq<Result<seq<Annotation>>>, k: nat, e: Error)
    requires |ks| == |outs|
  {
    && k < |outs| && (forall i :: 0 <= i < k ==> outs[i].Ok?) && outs[k] == Err(e)
    && m' == Touch(AppendAll(m, ks[..k], Values(outs[..k])), ks[k])
  }

  /** Appending every cell's successful outcome: each cell gains what `f` made of its content,
      every other key is unchanged, and the cells gain their keys. */
  lemma CellFoldEffect(m: Store, relation: seq<seq<string>>, numCols: nat, numRows: nat,
                       f: string -> Result<seq<Annotation>>, contents: seq<string>)
    requires numCols <= |relation| && forall c :: 0 <= c < numCols ==> numRows <= |relation[c]|
    requires |contents| == numCols * numRows
    requires forall i :: 0 <= i < |contents| ==>
      var g := CellRegions(numCols, numRows)[i]; contents[i] == relation[g.col][g.row]
    requires var outs := Outcomes(f, contents); forall i :: 0 <= i < |outs| ==> outs[i].Ok?
    ensures CellsAnnotated(m, AppendAll(m, CellKeys(numCols, numRows), Values(Outcomes(f, contents))), relation, numCols, numRows, f)
  {
    var ks := CellKeys(numCols, numRows);
    var outs := Outcomes(f, contents);
    AppendAllKeys(m, ks, Values(outs));
    forall key | key !in ks ensures Get(AppendAll(m, ks, Values(outs)), key) == Get(m, key) {
      AppendAllUnlisted(m, ks, Values(outs), key);
    }
    forall c, r | 0 <= c < numCols && 0 <= r < numRows
      ensures f(relation[c][r]).Ok?
      ensures Get(AppendAll(m, ks, Values(outs)), Key(Cell(c, r))) == Get(m, Key(Cell(c, r))) + f(relation[c][r]).value
    {
      CellFoldOne(m, relation, numCols, numRows, f, contents, c, r);
    }
  }

  /** The cell at column `c`, row `r` gains what `f` made of its content. */
  lemma CellFoldOne(m: Store, relation: seq<seq<string>>, numCols: nat, numRows: nat,
                    f: string -> Result<seq<Annotation>>, contents: seq<string>, c: nat, r: nat)
    requires c < numCols <= |relation| && r < numRows && forall c :: 0 <= c < numCols ==> numRows <= |relation[c]|
    requires |contents| == numCols * numRows
    requires forall i :: 0 <= i < |contents| ==>
      var g := CellRegions(numCols, numRows)[i]; contents[i] == relation[g.col][g.row]
    requires var outs := Outcomes(f, contents); forall i :: 0 <= i < |outs| ==> outs[i].Ok?
    ensures f(relation[c][r]).Ok?
    ensures Get(AppendAll(m, CellKeys(numCols, numRows), Values(Outcomes(f, contents))), Key(Cell(c, r)))
         == Get(m, Key(Cell(c, r))) + f(relation[c][r]).value
  {
    var gs := CellRegions(numCols, numRows);
    assert Cell(c, r) in gs;
    var j :| 0 <= j < |gs| && gs[j] == Cell(c, r);
    AppendAllListed(m, CellKeys(numCols, numRows), Values(Outcomes(f, contents)), j);
  }

  /** The contents of the cells of the first `numCols` columns and `numRows` rows, in
      `TableCellSet.indices` order. */
  function GridContents(relation: seq<seq<string>>, numCols: nat, numRows: nat): (contents: seq<string>)
    requires numCols <= |relation| && forall c :: 0 <= c < numCols ==> numRows <= |relation[c]|
    ensures |contents| == numCols * numRows
    ensures forall i :: 0 <= i < |contents| ==>
      var g := CellRegions(numCols, numRows)[i]; contents[i] == relation[g.col][g.row]
  {
    var gs := CellRegions(numCols, numRows);
    seq(|gs|, i requires 0 <= i < |gs| => relation[gs[i].col][gs[i].row])
  }

  // ---------------------------------------------------------------- the table

  class Table {
    const relation: seq<seq<string>>
    const numCols: nat
    const numRows: nat
    const headerRowIndex: Option<int>
    var annotations: Store

    /** `num_cols = len(relation)`, `num_rows = len(relation[0])`. */
    predicate Shaped()
    {
      numCols == |relation| > 0 && numRows == |relation[0]|
    }

    /** Every cell the sets visit exists: a column may be longer than the first (its extra
        entries are never visited) but not shorter. */
    predicate Valid()
    {
      && Shaped()
      && forall c :: 0 <= c < |relation| ==> numRows <= |relation[c]|
    }

    /** `Table(table_data)`: the annotation map is the record's own, or a new empty one. The
        columns are not checked, so a table may have a column shorter than the first; reading
        one of its missing cells raises. */
    constructor (relation: seq<seq<string>>, initial: Option<Store>, headerRowIndex: Option<int>)
      requires |relation| > 0
      ensures Shaped()
      ensures Valid() <==> forall c :: 0 <= c < |relation| ==> |relation[0]| <= |relation[c]|
      ensures this.relation == relation && this.headerRowIndex == headerRowIndex
      ensures annotations == if initial.Some? then initial.value else map[]
    {
      this.relation := relation;
      this.numCols := |relation|;
      this.numRows := |relation[0]|;
      this.headerRowIndex := headerRowIndex;
      this.annotations := if initial.Some? then initial.value else map[];
    }

    /** A cell's content, `relation[c][r]`. */
    function Content(c: nat, r: nat): string
      requires Valid() && c < numCols && r < numRows
    {
      relation[c][r]
    }

    /** A row's data, `[col[r] for col in relation]`. */
    function RowContent(r: nat): (row: seq<string>)
      requires Valid() && r < numRows
      ensures |row| == numCols && forall c :: 0 <= c < numCols ==> row[c] == Content(c, r)
    {
      seq(numCols, c requires 0 <= c < numCols => relation[c][r])
    }

    /** Reading a region's annotations (`Table.annotations` and each set's `data`): the key is created lazily. */
    method Read(g: Region) returns (annos: seq<Annotation>)
      modifies this
      ensures annotations == Touch(old(annotations), Key(g))
      ensures annos == Get(old(annotations), Key(g))
    {
      if Key(g) !in annotations {
        annotations := annotations[Key(g) := []];
      }
      annos := annotations[Key(g)];
    }

    /** `<region>.annotations.append(x)` for each x of `xs`, on the list that reading the region returns. */
    method Append(g: Region, xs: seq<Annotation>)
      modifies this
      ensures annotations == AppendTo(old(annotations), Key(g), xs)
    {
      var current := Read(g);
      annotations := annotations[Key(g) := current + xs];
    }

    /** Each cell's content, in `TableCellSet.indices` order. */
    function CellContents(): (contents: seq<string>)
      requires Valid()
      ensures |contents| == numCols * numRows
      ensures forall i :: 0 <= i < |contents| ==>
        var g := CellRegions(numCols, numRows)[i]; contents[i] == relation[g.col][g.row]
    {
      GridContents(relation, numCols, numRows)
    }

    /** For each i in order: reads region `gs[i]` (creating it), computes `f(inputs[i])` and, when
        that succeeds, appends the result to the region; stops at the first failure, which leaves
        the earlier regions annotated and the failing region created. */
    method AnnotateEach<I>(gs: seq<Region>, inputs: seq<I>, f: I -> Result<seq<Annotation>>)
      returns (failure: Option<Error>, ghost k: nat)
      requires |gs| == |inputs|
      modifies this
      ensures var outs := Outcomes(f, inputs);
        failure.None? ==> (forall i :: 0 <= i < |outs| ==> outs[i].Ok?) && annotations == AppendAll(old(annotations), KeysOf(gs), Values(outs))
      ensures failure.Some? ==> StoppedAt(old(annotations), annotations, KeysOf(gs), Outcomes(f, inputs), k, failure.value)
    {
      ghost var outs := Outcomes(f, inputs);
      ghost var ks := KeysOf(gs);
      ghost var m0 := annotations;
      var i := 0;
      while i < |gs|
        invariant 0 <= i <= |gs|
        invariant forall j :: 0 <= j < i ==> outs[j].Ok?
        invariant annotations == AppendAll(m0, ks[..i], Values(outs[..i]))
      {
        annotations := Touch(annotations, Key(gs[i]));
        var out := f(inputs[i]);
        if out.Err? {
          return Some(out.error), i;
        }
        Append(gs[i], out.value);
        AnnotateStep(m0, ks, outs, i);
        i := i + 1;
      }
      assert ks[..i] == ks && outs[..i] == outs;
      return None, i;
    }

    /** `for cell in table.cells(): cell.annotations += f(cell.content)`, where `f` may raise: on
        success every cell gains what `f` made of its content and no other key changes; on a
        failure the cells before the failing one are annotated and the failing one is created. */
    method AnnotateCells(f: string -> Result<seq<Annotation>>) returns (failure: Option<Error>, ghost k: nat)
      requires Valid()
      modifies this
      ensures failure.None? ==> CellsAnnotated(old(annotations), annotations, relation, numCols, numRows, f)
      ensures var outs := Outcomes(f, CellContents());
        failure.None? ==>
          && (forall i :: 0 <= i < |outs| ==> outs[i].Ok?)
          && annotations == AppendAll(old(annotations), CellKeys(numCols, numRows), Values(outs))
      ensures failure.Some? ==>
        StoppedAt(old(annotations), annotations, CellKeys(numCols, numRows), Outcomes(f, CellContents()), k, failure.value)
    {
      ghost var m0 := annotations;
      var contents := CellContents();
      failure, k := AnnotateEach(CellRegions(numCols, numRows), contents, f);
      if failure.None? {
        CellFoldEffect(m0, relation, numCols, numRows, f, contents);
      }
    }

    /** `dump`: drops empty regions and returns the record. */
    method Dump() returns (relationOut: seq<seq<string>>, annotationsOut: Store)
      modifies this
      ensures annotations == Compact(old(annotations))
      ensures relationOut == relation && annotationsOut == annotations
    {
      annotations := Compact(annotations);
      relationOut, annotationsOut := relation, annotations;
    }
  }
}
