/** The property-linking evaluation (property_linking.py): for every column of a table that
    carries a gold property, the property URI most often proposed by the `LiteralLinking`
    annotations of its cells is compared with the gold one, recorded as an `evaluation`
    annotation of the column, and counted as the same URI, another URI, or no proposal. */
module PropertyLinking {
  import opened Common
  import opened Annotations
  import opened Tables
  import LiteralLinking

  const LinkTask: Option<string> := Some("LiteralLinking")

  /** `annotation['property_uri']`: only a property-URI record has the key. */
  function PropertyUriOf(a: Annotation): (r: Result<string>)
    ensures r.Ok? <==> a.body.PropertyUri?
    ensures r.Ok? ==> r.value == a.body.propertyUri
    ensures r.Err? ==> r.error == KeyError("property_uri")
  {
    if a.body.PropertyUri? then Ok(a.body.propertyUri) else Err(KeyError("property_uri"))
  }

  // ---------------------------------------------------------------- naiveMaximum

  /** The lists of the column's cells, row by row. */
  function CellLists(m: Store, col: int, numRows: nat): (ls: seq<seq<Annotation>>)
    ensures |ls| == numRows && forall r :: 0 <= r < numRows ==> ls[r] == Get(m, Key(Cell(col, r)))
  {
    seq(numRows, r requires 0 <= r < numRows => Get(m, Key(Cell(col, r))))
  }

  /** Filtering by task alone can only raise the KeyError of a record without `task`. */
  lemma {:induction false} FindByTaskRaises(annos: seq<Annotation>)
    ensures var r := FindAnnotations(annos, None, LinkTask, None);
      r.Err? ==> r.error == KeyError("task")
  {
    if annos != [] {
      FindByTaskRaises(annos[1..]);
    }
  }

  /** `pl_annotations`: the `LiteralLinking` records of the cells in row order, each cell's list
      filtered by `find_annotations(anno_task='LiteralLinking')`; a record without `task` raises. */
  function LinkedIn(lists: seq<seq<Annotation>>): (r: Result<seq<Annotation>>)
    ensures r.Err? ==> r.error == KeyError("task")
    decreases |lists|
  {
    if lists == [] then Ok([])
    else
      var n := |lists| - 1;
      match LinkedIn(lists[..n])
      case Err(e) => Err(e)
      case Ok(found) =>
        FindByTaskRaises(lists[n]);
        match FindAnnotations(lists[n], None, LinkTask, None)
        case Err(e) => Err(e)
        case Ok(more) => Ok(found + more)
  }

  /** The collection raises exactly when some cell holds a record without `task`. */
  lemma {:induction false} LinkedInRaises(lists: seq<seq<Annotation>>)
    ensures LinkedIn(lists).Err? <==> exists i, j :: 0 <= i < |lists| && 0 <= j < |lists[i]| && lists[i][j].task.None?
    decreases |lists|
  {
    if lists != [] {
      var n := |lists| - 1;
      LinkedInRaises(lists[..n]);
      assert forall i :: 0 <= i < n ==> lists[..n][i] == lists[i];
    }
  }

  /** One more cell read: its `LiteralLinking` records are appended. */
  lemma LinkedInNext(lists: seq<seq<Annotation>>, row: nat, found: seq<Annotation>, more: seq<Annotation>)
    requires row < |lists| && LinkedIn(lists[..row]) == Ok(found)
    requires FindAnnotations(lists[row], None, LinkTask, None) == Ok(more)
    ensures LinkedIn(lists[..row + 1]) == Ok(found + more)
  {
    assert lists[..row + 1][..row] == lists[..row];
  }

  /** A cell whose filter raises makes the collection raise KeyError('task'). */
  lemma LinkedInStops(lists: seq<seq<Annotation>>, row: nat)
    requires row < |lists| && FindAnnotations(lists[row], None, LinkTask, None).Err?
    ensures LinkedIn(lists) == Err(KeyError("task"))
  {
    LinkedInRaises(lists);
    var j :| 0 <= j < |lists[row]| && Matches(lists[row][j], None, LinkTask, None).Err?;
    assert lists[row][j].task.None?;
  }

  /** The collected records are exactly the `LiteralLinking` records of the cells. */
  lemma {:induction false} LinkedInMembers(lists: seq<seq<Annotation>>, a: Annotation)
    requires LinkedIn(lists).Ok?
    ensures a in LinkedIn(lists).value <==> a.task == LinkTask && exists i :: 0 <= i < |lists| && a in lists[i]
    decreases |lists|
  {
    if lists != [] {
      var n := |lists| - 1;
      LinkedInMembers(lists[..n], a);
      FilterIsSubsequence(lists[n], None, LinkTask, None);
      assert forall i :: 0 <= i < n ==> lists[..n][i] == lists[i];
      if a.task == LinkTask && exists i :: 0 <= i < |lists| && a in lists[i] {
        var i :| 0 <= i < |lists| && a in lists[i];
        if i < n { assert a in lists[..n][i]; }
      }
    }
  }

  /** `property_uris`: the `property_uri` of each collected record, in order. */
  function UrisOf(annos: seq<Annotation>): (r: Result<seq<string>>)
    ensures r.Err? ==> r.error == KeyError("property_uri")
    decreases |annos|
  {
    if annos == [] then Ok([])
    else
      var n := |annos| - 1;
      match UrisOf(annos[..n])
      case Err(e) => Err(e)
      case Ok(us) =>
        match PropertyUriOf(annos[n])
        case Err(e) => Err(e)
        case Ok(u) => Ok(us + [u])
  }

  /** Reading the URIs succeeds exactly when every record is a property-URI record, and then
      gives their URIs in order. */
  lemma {:induction false} UrisOfValues(annos: seq<Annotation>)
    ensures UrisOf(annos).Ok? <==> forall i :: 0 <= i < |annos| ==> annos[i].body.PropertyUri?
    ensures UrisOf(annos).Ok? ==>
      |UrisOf(annos).value| == |annos| && forall i :: 0 <= i < |annos| ==> UrisOf(annos).value[i] == annos[i].body.propertyUri
    decreases |annos|
  {
    if annos != [] {
      var n := |annos| - 1;
      UrisOfValues(annos[..n]);
      assert forall i :: 0 <= i < n ==> annos[..n][i] == annos[i];
    }
  }

  /** The position of the first occurrence of `u`. */
  function FirstIndex(s: seq<string>, u: string): (i: nat)
    requires u in s
    ensures i < |s| && s[i] == u && forall k :: 0 <= k < i ==> s[k] != u
  {
    if s[0] == u then 0 else 1 + FirstIndex(s[1..], u)
  }

  /** Appending an element moves no first occurrence. */
  lemma FirstIndexSnoc(s: seq<string>, u: string)
    ensures forall v :: v in s ==> FirstIndex(s + [u], v) == FirstIndex(s, v)
    ensures u !in s ==> FirstIndex(s + [u], u) == |s|
  {
    forall v | v in s ensures FirstIndex(s + [u], v) == FirstIndex(s, v) {
      var i, i' := FirstIndex(s, v), FirstIndex(s + [u], v);
      assert (s + [u])[i] == v;
    }
  }

  /** The keys of `counter` in the dictionary's insertion order: each URI once, in the order of
      its first occurrence. */
  function FirstSeen(uris: seq<string>): (ks: seq<string>)
    ensures forall u :: u in ks <==> u in uris
    decreases |uris|
  {
    if uris == [] then []
    else
      var n := |uris| - 1;
      var u := uris[n];
      assert uris == uris[..n] + [u];
      var ks := FirstSeen(uris[..n]);
      if u in ks then ks else ks + [u]
  }

  /** Each URI is listed once, and the list follows the order of first occurrences. */
  lemma {:induction false} FirstSeenOrdered(uris: seq<string>)
    ensures var ks := FirstSeen(uris);
      && Distinct(ks)
      && forall a, b :: 0 <= a < b < |ks| ==> FirstIndex(uris, ks[a]) < FirstIndex(uris, ks[b])
    decreases |uris|
  {
    if uris != [] {
      var n := |uris| - 1;
      var u := uris[n];
      assert uris == uris[..n] + [u];
      FirstSeenOrdered(uris[..n]);
      FirstIndexSnoc(uris[..n], u);
    }
  }

  /** `counter` after the counting loop: each URI maps to its number of occurrences. */
  function Counts(uris: seq<string>): (counter: map<string, nat>)
    ensures forall u :: u in counter <==> u in uris
    ensures forall u :: u in counter ==> counter[u] == multiset(uris)[u]
  {
    map u | u in uris :: multiset(uris)[u]
  }

  /** One more URI counted: it is incremented when present and enters with 1 otherwise, and the
      insertion order gains it only then. */
  lemma CountNext(uris: seq<string>, i: nat)
    requires i < |uris|
    ensures var counter, u := Counts(uris[..i]), uris[i];
      Counts(uris[..i + 1]) == if u in counter then counter[u := counter[u] + 1] else counter[u := 1]
    ensures FirstSeen(uris[..i + 1]) == if uris[i] in uris[..i] then FirstSeen(uris[..i]) else FirstSeen(uris[..i]) + [uris[i]]
  {
    var s, u := uris[..i], uris[i];
    assert uris[..i + 1] == s + [u];
    assert multiset(s + [u]) == multiset(s) + multiset{u};
    var counter := Counts(s);
    var expected := if u in counter then counter[u := counter[u] + 1] else counter[u := 1];
    assert Counts(s + [u]).Keys == expected.Keys;
  }

  /** `max(counter, key=counter.get)`: the first key, in iteration order, with the largest count;
      a later key replaces the best so far only with a strictly larger count. */
  function MaxByCount(keys: seq<string>, counter: map<string, nat>): (best: string)
    requires keys != [] && forall k :: k in keys ==> k in counter
    ensures best in keys
    ensures forall k :: k in keys ==> counter[k] <= counter[best]
    ensures exists j :: 0 <= j < |keys| && keys[j] == best && forall i :: 0 <= i < j ==> counter[keys[i]] < counter[best]
    decreases |keys|
  {
    if |keys| == 1 then keys[0]
    else
      var n := |keys| - 1;
      var b := MaxByCount(keys[..n], counter);
      assert forall i :: 0 <= i < n ==> keys[..n][i] == keys[i];
      if counter[keys[n]] > counter[b] then keys[n] else b
  }

  /** The URI `naiveMaximum` returns for the collected URIs; `''` when there is none. */
  function Winner(uris: seq<string>): string
  {
    if uris == [] then "" else MaxByCount(FirstSeen(uris), Counts(uris))
  }

  /** A URI listed before another in `FirstSeen` is one that first occurs earlier. */
  lemma FirstSeenRank(uris: seq<string>, a: nat, b: nat)
    requires a < |FirstSeen(uris)| && b < |FirstSeen(uris)|
    requires FirstIndex(uris, FirstSeen(uris)[a]) < FirstIndex(uris, FirstSeen(uris)[b])
    ensures a < b
  {
    FirstSeenOrdered(uris);
  }

  /** The winner is `''` for no URIs and otherwise a most frequent URI. */
  lemma WinnerMostFrequent(uris: seq<string>)
    ensures uris == [] ==> Winner(uris) == ""
    ensures uris != [] ==> Winner(uris) in uris && forall u :: u in uris ==> multiset(uris)[u] <= multiset(uris)[Winner(uris)]
  {
    if uris != [] {
      var counter := Counts(uris);
      var w := MaxByCount(FirstSeen(uris), counter);
      forall u | u in uris ensures multiset(uris)[u] <= multiset(uris)[w] {
        assert counter[u] <= counter[w];
      }
    }
  }

  /** Among equally frequent URIs the winner is the one that occurs first: every URI occurring
      before the winner's first occurrence is strictly less frequent. */
  lemma WinnerFirstAmongTies(uris: seq<string>)
    requires uris != []
    ensures var w := Winner(uris);
      exists i :: 0 <= i < |uris| && uris[i] == w && forall k :: 0 <= k < i ==> multiset(uris)[uris[k]] < multiset(uris)[w]
  {
    var ks, counter := FirstSeen(uris), Counts(uris);
    var w := Winner(uris);
    var j :| 0 <= j < |ks| && ks[j] == w && forall a :: 0 <= a < j ==> counter[ks[a]] < counter[w];
    var i := FirstIndex(uris, w);
    forall k | 0 <= k < i ensures multiset(uris)[uris[k]] < multiset(uris)[w] {
      var u := uris[k];
      assert u in ks;
      var a :| 0 <= a < |ks| && ks[a] == u;
      FirstSeenRank(uris, a, j);
    }
  }

  /** The vote of a column whose cells hold the lists `lists`: the `LiteralLinking` records are
      collected, their property URIs read and counted, and the most frequent one returned. */
  function Vote(lists: seq<seq<Annotation>>): Result<string>
  {
    match LinkedIn(lists)
    case Err(e) => Err(e)
    case Ok(found) =>
      match UrisOf(found)
      case Err(e) => Err(e)
      case Ok(uris) => Ok(Winner(uris))
  }

  /** Without any `LiteralLinking` record in the cells (and none without `task`) the vote is
      `''`. */
  lemma VoteWithoutLinks(lists: seq<seq<Annotation>>)
    requires forall i, j :: 0 <= i < |lists| && 0 <= j < |lists[i]| ==> lists[i][j].task.Some? && lists[i][j].task != LinkTask
    ensures Vote(lists) == Ok("")
  {
    LinkedInRaises(lists);
    var found := LinkedIn(lists).value;
    forall a ensures multiset(found)[a] == 0 {
      LinkedInMembers(lists, a);
    }
    assert multiset(found) == multiset{};
  }

  /** A non-empty vote is the property URI of a `LiteralLinking` record of some cell, and no URI
      of the collected records occurs more often. */
  lemma VoteProposed(lists: seq<seq<Annotation>>)
    requires Vote(lists).Ok? && Vote(lists).value != ""
    ensures exists i, a :: 0 <= i < |lists| && a in lists[i] && a.task == LinkTask && a.body == PropertyUri(Vote(lists).value)
    ensures var uris := UrisOf(LinkedIn(lists).value).value;
      forall u :: u in uris ==> multiset(uris)[u] <= multiset(uris)[Vote(lists).value]
  {
    var found := LinkedIn(lists).value;
    var uris := UrisOf(found).value;
    WinnerMostFrequent(uris);
    UrisOfValues(found);
    var k :| 0 <= k < |uris| && uris[k] == Vote(lists).value;
    LinkedInMembers(lists, found[k]);
  }

  /** The first loop of `naiveMaximum` on a column with `len` entries: the cells are read in
      row order, and reading the first row past the column's end (`relation[col][row]` in
      `TableCellSet.data`) raises IndexError, unless an earlier cell's filter raised first. */
  function Collected(m: Store, col: nat, numRows: nat, len: nat): (r: Result<seq<Annotation>>)
    ensures numRows <= len ==> r == LinkedIn(CellLists(m, col, numRows))
    ensures len < numRows ==> r.Err?
    ensures len < numRows ==> (r == Err(IndexError(len)) <==>
      forall i, j :: 0 <= i < len && 0 <= j < |Get(m, Key(Cell(col, i)))| ==> Get(m, Key(Cell(col, i)))[j].task.Some?)
    ensures len < numRows && r != Err(IndexError(len)) ==> r == Err(KeyError("task"))
  {
    if len < numRows then
      LinkedInRaises(CellLists(m, col, len));
      match LinkedIn(CellLists(m, col, len))
      case Err(e) => Err(e)
      case Ok(_) => Err(IndexError(len))
    else LinkedIn(CellLists(m, col, numRows))
  }

  /** `naiveMaximum(column)` on a column with `len` entries: the vote when no cell is missing,
      otherwise the exception of the first loop. */
  function ColumnVote(m: Store, col: nat, numRows: nat, len: nat): (r: Result<string>)
    ensures numRows <= len ==> r == Vote(CellLists(m, col, numRows))
    ensures len < numRows ==> r.Err? && Collected(m, col, numRows, len) == Err(r.error)
  {
    match Collected(m, col, numRows, len)
    case Err(e) => Err(e)
    case Ok(found) =>
      match UrisOf(found)
      case Err(e) => Err(e)
      case Ok(uris) => Ok(Winner(uris))
  }

  /** A cell holding a `property` annotation as LiteralLinking writes it (without a `task` key)
      makes the vote raise KeyError('task'). */
  lemma LinkAnnotationsRaise(lists: seq<seq<Annotation>>, i: nat, uri: string, elRef: string, lnRef: string)
    requires i < |lists| && LiteralLinking.LinkAnnotation(uri, elRef, lnRef) in lists[i]
    ensures Vote(lists) == Err(KeyError("task"))
  {
    var j :| 0 <= j < |lists[i]| && lists[i][j] == LiteralLinking.LinkAnnotation(uri, elRef, lnRef);
    assert lists[i][j].task.None?;
    LinkedInRaises(lists);
  }

  /** `naiveMaximum(column)`: every cell of the column is read in row order (creating its key),
      and the result is the vote over the lists read, or IndexError at a missing cell. */
  method NaiveMaximum(t: Table, col: nat) returns (r: Result<string>)
    requires col < |t.relation|
    modifies t
    ensures r == ColumnVote(old(t.annotations), col, t.numRows, |t.relation[col]|)
    ensures r.Ok? ==> t.annotations == TouchAll(old(t.annotations), KeysOf(ColumnCells(col, t.numRows)))
  {
    var found := CollectLinked(t, col);
    if found.Err? {
      return Err(found.error);
    }
    var uris := CollectUris(found.value);
    if uris.Err? {
      return Err(uris.error);
    }
    var keys, counter := CountUris(uris.value);
    if keys == [] {
      r := Ok("");
    } else {
      r := Ok(MaxByCount(keys, counter));
    }
  }

  /** The loop filling `pl_annotations`: each cell of the column is read in row order; the key
      of a missing cell is created before its content is found missing. */
  method CollectLinked(t: Table, col: nat) returns (r: Result<seq<Annotation>>)
    requires col < |t.relation|
    modifies t
    ensures r == Collected(old(t.annotations), col, t.numRows, |t.relation[col]|)
    ensures r.Ok? ==> t.annotations == TouchAll(old(t.annotations), KeysOf(ColumnCells(col, t.numRows)))
  {
    ghost var m := t.annotations;
    ghost var lists := CellLists(m, col, t.numRows);
    ghost var ks := KeysOf(ColumnCells(col, t.numRows));
    var found: seq<Annotation> := [];
    var row := 0;
    while row < t.numRows
      invariant row <= t.numRows && row <= |t.relation[col]|
      invariant t.annotations == TouchAll(m, ks[..row])
      invariant LinkedIn(lists[..row]) == Ok(found)
    {
      TouchNext(m, ks, row);
      var annos := t.Read(Cell(col, row));
      if |t.relation[col]| <= row {
        assert lists[..row] == CellLists(m, col, row);
        return Err(IndexError(row));
      }
      var selected := FindAnnotations(annos, None, LinkTask, None);
      assert lists[row] == annos;
      if selected.Err? {
        FindByTaskRaises(annos);
        CollectStops(m, col, t.numRows, |t.relation[col]|, row);
        return Err(selected.error);
      }
      LinkedInNext(lists, row, found, selected.value);
      found := found + selected.value;
      row := row + 1;
    }
    assert lists[..row] == lists && ks[..row] == ks;
    r := Ok(found);
  }

  /** A cell whose filter raises, read before any missing cell, makes the loop raise
      KeyError('task'). */
  lemma CollectStops(m: Store, col: nat, numRows: nat, len: nat, row: nat)
    requires row < numRows && row < len
    requires FindAnnotations(Get(m, Key(Cell(col, row))), None, LinkTask, None).Err?
    ensures Collected(m, col, numRows, len) == Err(KeyError("task"))
  {
    var n := if len < numRows then len else numRows;
    var lists := CellLists(m, col, n);
    assert lists[row] == Get(m, Key(Cell(col, row)));
    LinkedInStops(lists, row);
  }

  /** The loop reading `annotation['property_uri']` of each collected record. */
  method CollectUris(found: seq<Annotation>) returns (r: Result<seq<string>>)
    ensures r == UrisOf(found)
  {
    var uris: seq<string> := [];
    var i := 0;
    while i < |found|
      invariant i <= |found|
      invariant UrisOf(found[..i]) == Ok(uris)
    {
      var uri := PropertyUriOf(found[i]);
      assert found[..i + 1][..i] == found[..i];
      if uri.Err? {
        UrisOfValues(found);
        return Err(uri.error);
      }
      uris := uris + [uri.value];
      i := i + 1;
    }
    assert found[..i] == found;
    r := Ok(uris);
  }

  /** The counting loop: `counter` maps each URI to its occurrences, `keys` lists the dictionary's
      keys in insertion order. */
  method CountUris(uris: seq<string>) returns (keys: seq<string>, counter: map<string, nat>)
    ensures keys == FirstSeen(uris) && counter == Counts(uris)
  {
    keys, counter := [], map[];
    var i := 0;
    while i < |uris|
      invariant i <= |uris|
      invariant keys == FirstSeen(uris[..i]) && counter == Counts(uris[..i])
    {
      CountNext(uris, i);
      if uris[i] in counter {
        counter := counter[uris[i] := counter[uris[i]] + 1];
      } else {
        counter := counter[uris[i] := 1];
        keys := keys + [uris[i]];
      }
      i := i + 1;
    }
    assert uris[..i] == uris;
  }

  // ---------------------------------------------------------------- the gold property

  /** A gold record: task `PropertyLinking` from source `gold-v2`. */
  predicate IsGold(a: Annotation)
  {
    a.task == Some("PropertyLinking") && a.source == Some("gold-v2")
  }

  /** The condition of the gold loop raises on this record: `task` is read first, `source` only
      for a `PropertyLinking` record, and `property_uri` only for a gold one. */
  predicate Raises(a: Annotation)
  {
    a.task.None? || (a.task == Some("PropertyLinking") && a.source.None?) || (IsGold(a) && !a.body.PropertyUri?)
  }

  /** One iteration of the gold loop over the column's own list. */
  function GoldStep(gold: string, a: Annotation): Result<string>
  {
    if a.task.None? then Err(KeyError("task"))
    else if a.task.value != "PropertyLinking" then Ok(gold)
    else if a.source.None? then Err(KeyError("source"))
    else if a.source.value != "gold-v2" then Ok(gold)
    else PropertyUriOf(a)
  }

  /** `gold_uri` after the loop, starting from `''`. */
  function Gold(annos: seq<Annotation>): Result<string>
    decreases |annos|
  {
    if annos == [] then Ok("")
    else
      var n := |annos| - 1;
      match Gold(annos[..n])
      case Err(e) => Err(e)
      case Ok(g) => GoldStep(g, annos[n])
  }

  /** The gold loop raises exactly when one of the records makes its condition raise. */
  lemma {:induction false} GoldRaises(annos: seq<Annotation>)
    ensures Gold(annos).Err? <==> exists i :: 0 <= i < |annos| && Raises(annos[i])
    decreases |annos|
  {
    if annos != [] {
      var n := |annos| - 1;
      GoldRaises(annos[..n]);
      assert forall i :: 0 <= i < n ==> annos[..n][i] == annos[i];
    }
  }

  /** The gold URI is the `property_uri` of the last gold record, or `''` without one. */
  lemma {:induction false} GoldIsLast(annos: seq<Annotation>)
    requires Gold(annos).Ok?
    ensures var g := Gold(annos).value;
      || ((forall i :: 0 <= i < |annos| ==> !IsGold(annos[i])) && g == "")
      || (exists i :: 0 <= i < |annos| && IsGold(annos[i]) && annos[i].body == PropertyUri(g)
                      && forall j :: i < j < |annos| ==> !IsGold(annos[j]))
    decreases |annos|
  {
    if annos != [] {
      var n := |annos| - 1;
      GoldIsLast(annos[..n]);
      assert forall i :: 0 <= i < n ==> annos[..n][i] == annos[i];
      if !IsGold(annos[n]) && exists i :: 0 <= i < n && IsGold(annos[..n][i]) {
        var i :| 0 <= i < n && IsGold(annos[..n][i]) && annos[..n][i].body == PropertyUri(Gold(annos[..n]).value)
                 && forall j :: i < j < n ==> !IsGold(annos[..n][j]);
        assert IsGold(annos[i]);
      }
    }
  }

  /** The gold loop over the list read from the column's key. */
  method GoldIn(annos: seq<Annotation>) returns (r: Result<string>)
    ensures r == Gold(annos)
  {
    var gold := "";
    var i := 0;
    while i < |annos|
      invariant i <= |annos|
      invariant Gold(annos[..i]) == Ok(gold)
    {
      assert annos[..i + 1][..i] == annos[..i];
      var step := GoldStep(gold, annos[i]);
      if step.Err? {
        GoldStops(annos, i);
        return step;
      }
      gold := step.value;
      i := i + 1;
    }
    assert annos[..i] == annos;
    r := Ok(gold);
  }

  /** Once the loop raises on a record, the whole loop raises the same exception. */
  lemma {:induction false} GoldStops(annos: seq<Annotation>, i: nat)
    requires i < |annos| && Gold(annos[..i + 1]).Err?
    ensures Gold(annos) == Gold(annos[..i + 1])
    decreases |annos|
  {
    if i + 1 < |annos| {
      var n := |annos| - 1;
      assert annos[..n][..i + 1] == annos[..i + 1];
      GoldStops(annos[..n], i);
    } else {
      assert annos[..i + 1] == annos;
    }
  }

  // ---------------------------------------------------------------- one column

  datatype Verdict = NoGold | Same | Other | NoLL

  /** The comparison of a column's vote with its (non-empty) gold URI. */
  function Judge(gold: string, vote: string): Verdict
    requires gold != ""
  {
    if vote == gold then Same else if vote == "" then NoLL else Other
  }

  /** The annotation recording the vote on the column. */
  function Evaluation(vote: string): Annotation
  {
    Annotation(Some("evaluation"), Some("PropertyLinking"), None, PropertyUri(vote))
  }

  /** What the column gains: the vote, unless it is `''`. */
  function Evaluations(vote: string): seq<Annotation>
  {
    if vote == "" then [] else [Evaluation(vote)]
  }

  /** One iteration of the column loop on a column with `len` entries: the column's list is read
      and its gold URI found; without one the column is `NoGold`; otherwise the cells are read
      for the vote, a non-empty vote is appended to the column's list, and the vote is judged
      against the gold URI. */
  function ColumnStep(m: Store, col: nat, numRows: nat, len: nat): Result<(Verdict, Store)>
  {
    var colKey := Key(Column(col));
    match Gold(Get(m, colKey))
    case Err(e) => Err(e)
    case Ok(gold) =>
      if gold == "" then Ok((NoGold, Touch(m, colKey)))
      else
        match ColumnVote(m, col, numRows, len)
        case Err(e) => Err(e)
        case Ok(vote) =>
          var read := TouchAll(Touch(m, colKey), KeysOf(ColumnCells(col, numRows)));
          Ok((Judge(gold, vote), AppendTo(read, colKey, Evaluations(vote))))
  }

  /** The verdict of a column: `NoGold` exactly without a gold URI, `Same` exactly when the vote
      equals it, `NoLL` exactly when there was no vote, `Other` otherwise; a column with a gold
      URI gets a verdict only when none of its cells is missing. */
  lemma VerdictMeaning(m: Store, col: nat, numRows: nat, len: nat)
    requires ColumnStep(m, col, numRows, len).Ok?
    ensures var v, gold := ColumnStep(m, col, numRows, len).value.0, Gold(Get(m, Key(Column(col)))).value;
      && (v == NoGold <==> gold == "")
      && (gold != "" ==> numRows <= len && Vote(CellLists(m, col, numRows)).Ok?)
      && (v == Same <==> gold != "" && Vote(CellLists(m, col, numRows)).value == gold)
      && (v == NoLL <==> gold != "" && Vote(CellLists(m, col, numRows)).value == "")
      && (v == Other <==> gold != "" && Vote(CellLists(m, col, numRows)).value !in {gold, ""})
  {
  }

  /** A column step appends its vote to the column's own list and changes no other list. */
  lemma ColumnStepEffect(m: Store, col: nat, numRows: nat, len: nat)
    requires ColumnStep(m, col, numRows, len).Ok?
    ensures var m', colKey := ColumnStep(m, col, numRows, len).value.1, Key(Column(col));
      && Get(m', colKey) == Get(m, colKey) + (if Gold(Get(m, colKey)).value == "" then [] else Evaluations(Vote(CellLists(m, col, numRows)).value))
      && (forall k :: k != colKey ==> Get(m', k) == Get(m, k))
  {
  }

  /** `column.annotations` read at the start of the step, and the vote appended at the end. */
  method EvaluateColumn(t: Table, col: nat) returns (r: Result<Verdict>)
    requires col < |t.relation|
    modifies t
    ensures ColumnStep(old(t.annotations), col, t.numRows, |t.relation[col]|)
      == if r.Ok? then Ok((r.value, t.annotations)) else Err(r.error)
  {
    ghost var m := t.annotations;
    var colKey := Key(Column(col));
    var annos := t.Read(Column(col));
    var gold := GoldIn(annos);
    if gold.Err? {
      return Err(gold.error);
    }
    if gold.value == "" {
      return Ok(NoGold);
    }
    assert CellLists(t.annotations, col, t.numRows) == CellLists(m, col, t.numRows);
    var vote := NaiveMaximum(t, col);
    if vote.Err? {
      return Err(vote.error);
    }
    if vote.value != "" {
      t.Append(Column(col), [Evaluation(vote.value)]);
    } else {
      assert colKey in t.annotations;
      AppendNothing(t.annotations, colKey);
    }
    r := Ok(Judge(gold.value, vote.value));
  }

  // ---------------------------------------------------------------- the table

  /** Reading the same lists for a column's key and its cells' keys. */
  ghost predicate SameColumn(m1: Store, m2: Store, col: nat, numRows: nat)
  {
    && Get(m1, Key(Column(col))) == Get(m2, Key(Column(col)))
    && forall r :: 0 <= r < numRows ==> Get(m1, Key(Cell(col, r))) == Get(m2, Key(Cell(col, r)))
  }

  /** A column's verdict, and what it leaves under its own key, depend only on its own lists. */
  lemma ColumnLocal(m1: Store, m2: Store, col: nat, numRows: nat, len: nat)
    requires SameColumn(m1, m2, col, numRows)
    ensures ColumnStep(m1, col, numRows, len).Ok? <==> ColumnStep(m2, col, numRows, len).Ok?
    ensures ColumnStep(m1, col, numRows, len).Ok? ==>
      && ColumnStep(m1, col, numRows, len).value.0 == ColumnStep(m2, col, numRows, len).value.0
      && Get(ColumnStep(m1, col, numRows, len).value.1, Key(Column(col)))
         == Get(ColumnStep(m2, col, numRows, len).value.1, Key(Column(col)))
  {
    assert CellLists(m1, col, numRows) == CellLists(m2, col, numRows);
    if ColumnStep(m1, col, numRows, len).Ok? {
      ColumnStepEffect(m1, col, numRows, len);
      ColumnStepEffect(m2, col, numRows, len);
    }
  }

  /** A loop over columns `0 .. n - 1` applying `step` to each: the verdicts in column order and
      the store. */
  function Columns(m: Store, n: nat, step: (Store, nat) -> Result<(Verdict, Store)>): (r: Result<(seq<Verdict>, Store)>)
    ensures r.Ok? ==> |r.value.0| == n
    decreases n
  {
    if n == 0 then Ok(([], m))
    else
      match Columns(m, n - 1, step)
      case Err(e) => Err(e)
      case Ok(prev) =>
        match step(prev.1, n - 1)
        case Err(e) => Err(e)
        case Ok(out) => Ok((prev.0 + [out.0], out.1))
  }

  /** The number of entries of column `col`; the loop only visits existing columns. */
  function ColumnLength(relation: seq<seq<string>>, col: nat): nat
  {
    if col < |relation| then |relation[col]| else 0
  }

  function Judging(relation: seq<seq<string>>, numRows: nat): (Store, nat) -> Result<(Verdict, Store)>
  {
    (s: Store, col: nat) => ColumnStep(s, col, numRows, ColumnLength(relation, col))
  }

  /** The column loop of the evaluation over columns `0 .. n - 1`. */
  function Evaluate(m: Store, relation: seq<seq<string>>, numRows: nat, n: nat): Result<(seq<Verdict>, Store)>
  {
    Columns(m, n, Judging(relation, numRows))
  }

  /** A step on column `c` changes no list but the column's own. */
  ghost predicate StaysInColumn(step: (Store, nat) -> Result<(Verdict, Store)>)
  {
    forall s, c: nat, k {:trigger Get(step(s, c).value.1, k)} ::
      step(s, c).Ok? && k != Key(Column(c)) ==> Get(step(s, c).value.1, k) == Get(s, k)
  }

  /** A step whose verdict and own list depend only on the column's lists. */
  ghost predicate ReadsOwnColumn(step: (Store, nat) -> Result<(Verdict, Store)>, numRows: nat)
  {
    forall s1, s2, c: nat {:trigger SameColumn(s1, s2, c, numRows), step(s1, c)} ::
      SameColumn(s1, s2, c, numRows) && step(s1, c).Ok? ==>
      && step(s2, c).Ok? && step(s2, c).value.0 == step(s1, c).value.0
      && Get(step(s2, c).value.1, Key(Column(c))) == Get(step(s1, c).value.1, Key(Column(c)))
  }

  /** A column step keeps the list of every key but the column's own. */
  lemma ColumnStepFrame(m: Store, col: nat, numRows: nat, len: nat, k: string)
    requires ColumnStep(m, col, numRows, len).Ok? && k != Key(Column(col))
    ensures Get(ColumnStep(m, col, numRows, len).value.1, k) == Get(m, k)
  {
    ColumnStepEffect(m, col, numRows, len);
  }

  /** Once a column raises, the loop raises the same exception. */
  lemma {:induction false} ColumnsStop(m: Store, n: nat, step: (Store, nat) -> Result<(Verdict, Store)>, c: nat)
    requires c < n && Columns(m, c + 1, step).Err?
    ensures Columns(m, n, step) == Columns(m, c + 1, step)
    decreases n
  {
    if c + 1 < n {
      ColumnsStop(m, n - 1, step, c);
    }
  }

  /** The first `c` columns of a successful loop are a successful loop, and the later columns
      change only their own lists. */
  lemma {:induction false} ColumnsFrame(m: Store, n: nat, step: (Store, nat) -> Result<(Verdict, Store)>, c: nat)
    requires StaysInColumn(step) && c <= n && Columns(m, n, step).Ok?
    ensures Columns(m, c, step).Ok? && Columns(m, c, step).value.0 == Columns(m, n, step).value.0[..c]
    ensures forall k :: (forall j :: c <= j < n ==> k != Key(Column(j))) ==>
      Get(Columns(m, n, step).value.1, k) == Get(Columns(m, c, step).value.1, k)
    decreases n
  {
    if c < n {
      ColumnsFrame(m, n - 1, step, c);
      var prev := Columns(m, n - 1, step).value;
      assert Columns(m, n, step).value.0[..n - 1] == prev.0;
    }
  }

  /** Column keys and cell keys of other columns are not the key of column `col`. */
  lemma NotColumnKey(col: nat, numRows: nat, j: nat)
    requires j != col
    ensures Key(Column(j)) != Key(Column(col))
    ensures forall r :: 0 <= r < numRows ==> Key(Column(j)) != Key(Cell(col, r))
  {
    if Key(Column(j)) == Key(Column(col)) { KeyInjective(Column(j), Column(col)); }
    forall r | 0 <= r < numRows ensures Key(Column(j)) != Key(Cell(col, r)) {
      if Key(Column(j)) == Key(Cell(col, r)) { KeyInjective(Column(j), Cell(col, r)); }
    }
  }

  /** Before column `c` is reached, its lists are still those of the initial store. */
  lemma EarlierColumnsKeep(m: Store, c: nat, step: (Store, nat) -> Result<(Verdict, Store)>, numRows: nat)
    requires StaysInColumn(step) && Columns(m, c, step).Ok?
    ensures SameColumn(Columns(m, c, step).value.1, m, c, numRows)
  {
    ColumnsFrame(m, c, step, 0);
    forall j | 0 <= j < c
      ensures Key(Column(j)) != Key(Column(c)) && forall r :: 0 <= r < numRows ==> Key(Column(j)) != Key(Cell(c, r))
    {
      NotColumnKey(c, numRows, j);
    }
  }

  /** After column `c`, its verdict stays in place and its list is left alone. */
  lemma LaterColumnsKeep(m: Store, n: nat, step: (Store, nat) -> Result<(Verdict, Store)>, c: nat)
    requires StaysInColumn(step) && Columns(m, n, step).Ok? && c < n
    ensures Columns(m, c + 1, step).Ok?
    ensures Columns(m, n, step).value.0[c] == Columns(m, c + 1, step).value.0[c]
    ensures Get(Columns(m, n, step).value.1, Key(Column(c))) == Get(Columns(m, c + 1, step).value.1, Key(Column(c)))
  {
    ColumnsFrame(m, n, step, c + 1);
    forall j | c + 1 <= j < n ensures Key(Column(j)) != Key(Column(c)) {
      NotColumnKey(c, 0, j);
    }
    assert Columns(m, n, step).value.0[..c + 1][c] == Columns(m, n, step).value.0[c];
  }

  /** With a local step, every column is handled as if it came first: its verdict and its final
      list are those of the step applied to the initial store. */
  lemma ColumnsByColumn(m: Store, n: nat, step: (Store, nat) -> Result<(Verdict, Store)>, numRows: nat, c: nat)
    requires StaysInColumn(step) && ReadsOwnColumn(step, numRows)
    requires Columns(m, n, step).Ok? && c < n
    ensures step(m, c).Ok?
    ensures Columns(m, n, step).value.0[c] == step(m, c).value.0
    ensures Get(Columns(m, n, step).value.1, Key(Column(c))) == Get(step(m, c).value.1, Key(Column(c)))
  {
    LaterColumnsKeep(m, n, step, c);
    EarlierColumnsKeep(m, c, step, numRows);
  }

  /** Every column is judged on the lists the table started with: the loop's verdict for column
      `c`, and the list it leaves under the column's key, are those of the column step applied
      to the initial store. */
  lemma EvaluateByColumn(m: Store, relation: seq<seq<string>>, numRows: nat, n: nat, c: nat)
    requires Evaluate(m, relation, numRows, n).Ok? && c < n
    ensures ColumnStep(m, c, numRows, ColumnLength(relation, c)).Ok?
    ensures Evaluate(m, relation, numRows, n).value.0[c] == ColumnStep(m, c, numRows, ColumnLength(relation, c)).value.0
    ensures Get(Evaluate(m, relation, numRows, n).value.1, Key(Column(c)))
         == Get(ColumnStep(m, c, numRows, ColumnLength(relation, c)).value.1, Key(Column(c)))
  {
    JudgingLocal(relation, numRows);
    ColumnsByColumn(m, n, Judging(relation, numRows), numRows, c);
  }

  /** The column step stays in its column and reads only its own lists. */
  lemma JudgingLocal(relation: seq<seq<string>>, numRows: nat)
    ensures StaysInColumn(Judging(relation, numRows)) && ReadsOwnColumn(Judging(relation, numRows), numRows)
  {
    var step := Judging(relation, numRows);
    forall s, q: nat, k | step(s, q).Ok? && k != Key(Column(q)) ensures Get(step(s, q).value.1, k) == Get(s, k) {
      ColumnStepFrame(s, q, numRows, ColumnLength(relation, q), k);
    }
    forall s1, s2, q: nat | SameColumn(s1, s2, q, numRows) && step(s1, q).Ok?
      ensures step(s2, q).Ok? && step(s2, q).value.0 == step(s1, q).value.0
      ensures Get(step(s2, q).value.1, Key(Column(q))) == Get(step(s1, q).value.1, Key(Column(q)))
    {
      ColumnLocal(s1, s2, q, numRows, ColumnLength(relation, q));
    }
  }

  /** A column with a gold URI and a missing cell ends the evaluation, once the earlier columns
      are judged: with IndexError at its first missing row when every record of its earlier
      cells has a task, and with KeyError('task') otherwise. */
  lemma {:induction false} ShortGoldColumnRaises(m: Store, relation: seq<seq<string>>, numRows: nat, n: nat, c: nat)
    requires c < n && c < |relation| && |relation[c]| < numRows
    requires Evaluate(m, relation, numRows, c).Ok?
    requires Gold(Get(m, Key(Column(c)))).Ok? && Gold(Get(m, Key(Column(c)))).value != ""
    ensures Evaluate(m, relation, numRows, n).Err?
    ensures Collected(m, c, numRows, |relation[c]|) == Err(Evaluate(m, relation, numRows, n).error)
  {
    var step := Judging(relation, numRows);
    JudgingLocal(relation, numRows);
    var before := Columns(m, c, step).value.1;
    EarlierColumnsKeep(m, c, step, numRows);
    var len := |relation[c]|;
    assert CellLists(before, c, len) == CellLists(m, c, len);
    assert Collected(before, c, numRows, len) == Collected(m, c, numRows, len);
    assert step(before, c) == Err(Collected(m, c, numRows, len).error);
    ColumnsStop(m, n, step, c);
  }

  /** A record whose second column, carrying a gold URI, is one entry short of the first: the
      evaluation raises IndexError at row 1 of that column. */
  lemma ShortGoldColumnExample()
    ensures var gold := Annotation(Some("gold-v2"), Some("PropertyLinking"), None, PropertyUri("dbo:p"));
      Evaluate(map[Key(Column(1)) := [gold]], [["a", "b"], ["x"]], 2, 2) == Err(IndexError(1))
  {
    var gold := Annotation(Some("gold-v2"), Some("PropertyLinking"), None, PropertyUri("dbo:p"));
    var m := map[Key(Column(1)) := [gold]];
    var relation := [["a", "b"], ["x"]];
    NotColumnKey(1, 2, 0);
    assert Get(m, Key(Column(0))) == [];
    assert Gold(Get(m, Key(Column(1)))) == Ok("dbo:p");
    ShortGoldColumnRaises(m, relation, 2, 2, 1);
    if Key(Column(1)) == Key(Cell(1, 0)) {
      KeyInjective(Column(1), Cell(1, 0));
    }
    assert Get(m, Key(Cell(1, 0))) == [];
  }

  /** The per-table counters. */
  datatype Tally = Tally(columns: nat, same: nat, other: nat, noGold: nat, noLL: nat)

  /** One more column of the loop is the column step on the store the earlier columns left. */
  lemma EvaluateNext(m: Store, relation: seq<seq<string>>, numRows: nat, c: nat, vs: seq<Verdict>, s: Store)
    requires c < |relation| && Evaluate(m, relation, numRows, c) == Ok((vs, s))
    ensures var out := ColumnStep(s, c, numRows, |relation[c]|);
      && (out.Err? ==> Evaluate(m, relation, numRows, c + 1) == Err(out.error))
      && (out.Ok? ==> Evaluate(m, relation, numRows, c + 1) == Ok((vs + [out.value.0], out.value.1)))
  {
    assert Judging(relation, numRows)(s, c) == ColumnStep(s, c, numRows, |relation[c]|);
  }

  /** The counters after one more column. */
  function Bump(t: Tally, v: Verdict): Tally
  {
    var t' := t.(columns := t.columns + 1);
    match v
    case NoGold => t'.(noGold := t.noGold + 1)
    case Same => t'.(same := t.same + 1)
    case NoLL => t'.(noLL := t.noLL + 1)
    case Other => t'.(other := t.other + 1)
  }

  /** The counters after the verdicts `vs`: one count per column, split by verdict. */
  function Count(vs: seq<Verdict>): (t: Tally)
    ensures t.columns == |vs| == t.same + t.other + t.noGold + t.noLL
    ensures t.same == multiset(vs)[Same] && t.other == multiset(vs)[Other]
    ensures t.noGold == multiset(vs)[NoGold] && t.noLL == multiset(vs)[NoLL]
    decreases |vs|
  {
    if vs == [] then Tally(0, 0, 0, 0, 0)
    else
      var n := |vs| - 1;
      assert vs == vs[..n] + [vs[n]];
      Bump(Count(vs[..n]), vs[n])
  }

  /** The loop over `table.columns()`: each column is evaluated and counted; the verdicts are
      those of `Evaluate`, and an exception in any column ends the evaluation. */
  method EvaluateTable(t: Table) returns (r: Result<Tally>, ghost verdicts: seq<Verdict>)
    requires t.Shaped()
    modifies t
    ensures r.Ok? ==>
      && Evaluate(old(t.annotations), t.relation, t.numRows, t.numCols) == Ok((verdicts, t.annotations))
      && r.value == Count(verdicts)
    ensures r.Err? ==> Evaluate(old(t.annotations), t.relation, t.numRows, t.numCols) == Err(r.error)
  {
    ghost var m := t.annotations;
    var tally := Tally(0, 0, 0, 0, 0);
    verdicts := [];
    var c := 0;
    while c < t.numCols
      invariant c <= t.numCols
      invariant Evaluate(m, t.relation, t.numRows, c) == Ok((verdicts, t.annotations))
      invariant tally == Count(verdicts)
    {
      ghost var before := t.annotations;
      var v := EvaluateColumn(t, c);
      EvaluateNext(m, t.relation, t.numRows, c, verdicts, before);
      if v.Err? {
        ColumnsStop(m, t.numCols, Judging(t.relation, t.numRows), c);
        return Err(v.error), verdicts;
      }
      tally := Bump(tally, v.value);
      verdicts := verdicts + [v.value];
      c := c + 1;
    }
    r := Ok(tally);
  }
}
