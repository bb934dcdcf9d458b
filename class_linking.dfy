/** `ClassLinking` (wtu/task/classlinking.py): the cells of the header row are looked up,
    case-insensitively, in an index of class names, and a found class becomes a `class`
    annotation with the class's full URI. */
module ClassLinking {
  import opened Common
  import opened Text
  import opened Annotations
  import opened Tables
  import Uri

  /** The CSV backend's index: lower-cased mention to the short form of its class URI. */
  type Index = map<string, string>

  /** One row `(mention, uri)` of the index file: the short form of `URI.parse(uri, 'dbo')`,
      or the exception the parse raises. */
  function Entry(row: (string, string)): (r: Result<string>)
    ensures r.Ok? <==> Uri.Parse(row.1, Some("dbo")).Ok?
    ensures r.Ok? ==> r.value == Uri.Short(Uri.Parse(row.1, Some("dbo")).value)
  {
    match Uri.Parse(row.1, Some("dbo"))
    case Err(e) => Err(e)
    case Ok(u) => Ok(Uri.Short(u))
  }

  /** The rows folded into a map: each row's entry is stored under its lower-cased mention,
      later rows overwriting earlier ones; the first failing entry ends the fold. */
  function IndexedBy(rows: seq<(string, string)>, entry: ((string, string)) -> Result<string>): Result<Index>
    decreases |rows|
  {
    if rows == [] then Ok(map[])
    else
      match IndexedBy(rows[..|rows| - 1], entry)
      case Err(e) => Err(e)
      case Ok(m) =>
        match entry(rows[|rows| - 1])
        case Err(e) => Err(e)
        case Ok(v) => Ok(m[Lower(rows[|rows| - 1].0) := v])
  }

  /** The index built from the rows of the index file. */
  function Indexed(rows: seq<(string, string)>): Result<Index>
  {
    IndexedBy(rows, Entry)
  }

  /** `ClassLinkingBackendCSV.__init__`: the row loop filling `self.index`. */
  method BuildIndex(rows: seq<(string, string)>) returns (r: Result<Index>)
    ensures r == Indexed(rows)
  {
    var index: Index := map[];
    var i := 0;
    while i < |rows|
      invariant 0 <= i <= |rows|
      invariant IndexedBy(rows[..i], Entry) == Ok(index)
    {
      var parsed := Uri.Parse(rows[i].1, Some("dbo"));
      assert rows[..i + 1][..i] == rows[..i];
      if parsed.Err? {
        IndexedStops(rows, Entry, i);
        return Err(parsed.error);
      }
      index := index[Lower(rows[i].0) := Uri.Short(parsed.value)];
      i := i + 1;
    }
    assert rows[..i] == rows;
    r := Ok(index);
  }

  /** Once a prefix of the rows fails, the whole fold fails with the same exception. */
  lemma {:induction false} IndexedStops(rows: seq<(string, string)>, entry: ((string, string)) -> Result<string>, i: nat)
    requires i < |rows| && IndexedBy(rows[..i + 1], entry).Err?
    ensures IndexedBy(rows, entry) == IndexedBy(rows[..i + 1], entry)
    decreases |rows|
  {
    if i + 1 < |rows| {
      var init := rows[..|rows| - 1];
      assert init[..i + 1] == rows[..i + 1];
      IndexedStops(init, entry, i);
    } else {
      assert rows[..i + 1] == rows;
    }
  }

  /** The fold succeeds exactly when every row's entry does. */
  lemma {:induction false} IndexedByOk(rows: seq<(string, string)>, entry: ((string, string)) -> Result<string>)
    ensures IndexedBy(rows, entry).Ok? <==> forall j :: 0 <= j < |rows| ==> entry(rows[j]).Ok?
    decreases |rows|
  {
    if rows != [] {
      var n := |rows| - 1;
      IndexedByOk(rows[..n], entry);
      assert forall j :: 0 <= j < n ==> rows[..n][j] == rows[j];
    }
  }

  /** The index exists exactly when every row's URI parses. */
  lemma IndexedOk(rows: seq<(string, string)>)
    ensures Indexed(rows).Ok? <==> forall j :: 0 <= j < |rows| ==> Uri.Parse(rows[j].1, Some("dbo")).Ok?
  {
    IndexedByOk(rows, Entry);
  }

  /** The keys of the fold are the lower-cased mentions of the rows. */
  lemma {:induction false} IndexedByKeys(rows: seq<(string, string)>, entry: ((string, string)) -> Result<string>, m: Index)
    requires IndexedBy(rows, entry) == Ok(m)
    ensures forall x :: x in m <==> exists j :: 0 <= j < |rows| && Lower(rows[j].0) == x
    decreases |rows|
  {
    if rows != [] {
      var n := |rows| - 1;
      var init := rows[..n];
      var m0 := IndexedBy(init, entry).value;
      IndexedByKeys(init, entry, m0);
      assert m == m0[Lower(rows[n].0) := entry(rows[n]).value];
      forall x ensures x in m <==> exists j :: 0 <= j < |rows| && Lower(rows[j].0) == x {
        if x in m && x != Lower(rows[n].0) {
          var j :| 0 <= j < n && Lower(init[j].0) == x;
          assert rows[j] == init[j];
        }
        if exists j :: 0 <= j < |rows| && Lower(rows[j].0) == x {
          var j :| 0 <= j < |rows| && Lower(rows[j].0) == x;
          if j < n { assert init[j] == rows[j]; }
        }
      }
    }
  }

  /** The index's keys are the lower-cased mentions of the rows. */
  lemma IndexedKeys(rows: seq<(string, string)>, m: Index)
    requires Indexed(rows) == Ok(m)
    ensures forall x :: x in m <==> exists j :: 0 <= j < |rows| && Lower(rows[j].0) == x
  {
    IndexedByKeys(rows, Entry, m);
  }

  /** A mention's value in the fold is the entry of the last row with that mention, in any case. */
  lemma {:induction false} IndexedByLast(rows: seq<(string, string)>, entry: ((string, string)) -> Result<string>, m: Index, j: nat)
    requires IndexedBy(rows, entry) == Ok(m) && j < |rows|
    requires forall i :: j < i < |rows| ==> Lower(rows[i].0) != Lower(rows[j].0)
    ensures entry(rows[j]).Ok? && Lower(rows[j].0) in m && m[Lower(rows[j].0)] == entry(rows[j]).value
    decreases |rows|
  {
    var n := |rows| - 1;
    var m0 := IndexedBy(rows[..n], entry).value;
    if j < n {
      assert forall i :: j < i < n ==> rows[..n][i] == rows[i];
      IndexedByLast(rows[..n], entry, m0, j);
      assert rows[..n][j] == rows[j];
    }
  }

  /** A mention's entry is the short URI of the last row with that mention, in any case. */
  lemma IndexedLast(rows: seq<(string, string)>, m: Index, j: nat)
    requires Indexed(rows) == Ok(m) && j < |rows|
    requires forall i :: j < i < |rows| ==> Lower(rows[i].0) != Lower(rows[j].0)
    ensures Uri.Parse(rows[j].1, Some("dbo")).Ok?
    ensures Lower(rows[j].0) in m && m[Lower(rows[j].0)] == Uri.Short(Uri.Parse(rows[j].1, Some("dbo")).value)
  {
    IndexedByLast(rows, Entry, m, j);
  }

  /** `ClassLinkingBackendCSV.query`: the mention is lower-cased before the lookup; an unknown
      mention gives `None`. */
  function Query(index: Index, mention: string): (r: Option<string>)
    ensures r.Some? <==> Lower(mention) in index
    ensures r.Some? ==> r.value == index[Lower(mention)]
  {
    if Lower(mention) in index then Some(index[Lower(mention)]) else None
  }

  /** Looking up a mention in any case finds the same entry. */
  lemma QueryIgnoresCase(index: Index, mention: string)
    ensures Query(index, mention) == Query(index, Lower(mention))
  {
    LowerIdempotent(mention);
  }

  function ClassAnnotation(classUri: string): Annotation
  {
    Annotation(Some("preprocessing"), Some("ClassLinking"), Some("class"), ClassLink(classUri))
  }

  /** What a header cell with content `content` gains: nothing for an unknown mention, else one
      `class` annotation with the long form of `URI.parse(found, 'dbo')`. */
  function Classify(index: Index, content: string): (r: Result<seq<Annotation>>)
    ensures Query(index, content).None? ==> r == Ok([])
    ensures r.Ok? && |r.value| > 0 ==>
      && |r.value| == 1 && r.value[0].source == Some("preprocessing")
      && r.value[0].task == Some("ClassLinking") && r.value[0].kind == Some("class")
  {
    match Query(index, content)
    case None => Ok([])
    case Some(found) =>
      match Uri.Parse(found, Some("dbo"))
      case Err(e) => Err(e)
      case Ok(u) => Ok([ClassAnnotation(Uri.Long(u))])
  }

  /** Against an index built from the rows, a header cell matching a row's mention in any case
      gains the long form of the last such row's class URI. */
  lemma ClassifyIndexed(rows: seq<(string, string)>, m: Index, content: string, j: nat)
    requires Indexed(rows) == Ok(m) && j < |rows| && Lower(rows[j].0) == Lower(content)
    requires forall i :: j < i < |rows| ==> Lower(rows[i].0) != Lower(rows[j].0)
    ensures var parsed := Uri.Parse(rows[j].1, Some("dbo"));
      parsed.Ok? && Classify(m, content) == Ok([ClassAnnotation(Uri.Long(parsed.value))])
  {
    IndexedLast(rows, m, j);
    ClassifyFound(m, content, Uri.Parse(rows[j].1, Some("dbo")).value);
  }

  /** A found short URI is parsed back to the URI it was made from. */
  lemma ClassifyFound(m: Index, content: string, u: Uri.Uri)
    requires Uri.Known(u.prefix) && Lower(content) in m && m[Lower(content)] == Uri.Short(u)
    ensures Classify(m, content) == Ok([ClassAnnotation(Uri.Long(u))])
  {
    Uri.ParseShortRoundTrip(u, Some("dbo"));
  }

  /** `xs[i]` in Python: a negative index counts from the end; outside the list it raises. */
  function PyIndex(xs: seq<string>, i: int): (r: Result<string>)
    ensures r.Ok? <==> -|xs| <= i < |xs|
    ensures r.Ok? ==> r.value == xs[if i < 0 then |xs| + i else i]
    ensures r.Err? ==> r.error == IndexError(i)
  {
    if 0 <= i < |xs| then Ok(xs[i])
    else if -|xs| <= i < 0 then Ok(xs[|xs| + i])
    else Err(IndexError(i))
  }

  /** One header cell: its content is read from the column at the header index, then classified. */
  function HeaderOutcome(index: Index, header: int, column: seq<string>): Result<seq<Annotation>>
  {
    match PyIndex(column, header)
    case Err(e) => Err(e)
    case Ok(content) => Classify(index, content)
  }

  function HeaderClassifier(index: Index, header: int): seq<string> -> Result<seq<Annotation>>
  {
    column => HeaderOutcome(index, header, column)
  }

  /** `run` annotates when the record has a header index other than -1. */
  predicate HasHeader(headerRowIndex: Option<int>)
  {
    headerRowIndex.Some? && headerRowIndex.value != -1
  }

  /** Store `m'` is `m` after each cell of row `header` gained its outcome: every other key keeps
      its list and the header cells' keys exist. */
  ghost predicate HeaderAnnotated(m: Store, m': Store, relation: seq<seq<string>>, index: Index, header: int)
  {
    && (forall c :: 0 <= c < |relation| ==>
          HeaderOutcome(index, header, relation[c]).Ok?
          && Get(m', Key(Cell(c, header))) == Get(m, Key(Cell(c, header))) + HeaderOutcome(index, header, relation[c]).value)
    && (forall key :: key !in KeysOf(RowCells(header, |relation|)) ==> Get(m', key) == Get(m, key))
    && m'.Keys == m.Keys + set key | key in KeysOf(RowCells(header, |relation|))
  }

  /** `ClassLinking.run`: without a header index, or with -1, nothing changes; otherwise each
      cell of the header row, column by column, gains what `HeaderOutcome` makes of it, and the
      first exception ends the run with the earlier cells annotated and the failing one created. */
  method Run(t: Table, index: Index) returns (r: Result<bool>, ghost k: nat)
    requires t.Shaped()
    modifies t
    ensures r.Ok? ==> r.value
    ensures !HasHeader(t.headerRowIndex) ==> r == Ok(true) && t.annotations == old(t.annotations)
    ensures r.Ok? && HasHeader(t.headerRowIndex) ==>
      HeaderAnnotated(old(t.annotations), t.annotations, t.relation, index, t.headerRowIndex.value)
    ensures r.Err? ==>
      && HasHeader(t.headerRowIndex)
      && StoppedAt(old(t.annotations), t.annotations, KeysOf(RowCells(t.headerRowIndex.value, t.numCols)),
                   Outcomes(HeaderClassifier(index, t.headerRowIndex.value), t.relation), k, r.error)
  {
    if !HasHeader(t.headerRowIndex) {
      return Ok(true), 0;
    }
    var header := t.headerRowIndex.value;
    ghost var m0 := t.annotations;
    var gs := RowCells(header, t.numCols);
    var failure;
    failure, k := t.AnnotateEach(gs, t.relation, HeaderClassifier(index, header));
    if failure.Some? {
      return Err(failure.value), k;
    }
    RegionsAnnotated(m0, gs, Outcomes(HeaderClassifier(index, header), t.relation));
    r := Ok(true);
  }
}
