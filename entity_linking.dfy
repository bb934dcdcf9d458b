/** `EntityLinking` (wtu/task/entitylinking.py): every cell's content is looked up as a mention
    in the backend's index; the best `top_n` entities by frequency become `resource` annotations
    scored by their share of the total frequency. */
module EntityLinking {
  import opened Common
  import opened Text
  import opened Annotations
  import opened Tables

  const Source := "EntityLinking"

  /** `EntityLinking.__init__(backend, top_n=3)`. */
  const DefaultTopN: int := 3

  /** The CSV backend's index: each mention with its `(uri, frequency)` rows in file order, the
      frequency still as the text of its column. */
  type Index = map<string, seq<(string, string)>>

  /** An entity the backend returns: its URI and its frequency. */
  type Candidate = (string, int)

  // ---------------------------------------------------------------- int()

  /** The texts `int()` reads here: an optional sign and one or more ASCII digits. */
  predicate IntText(s: string)
  {
    var d := if |s| > 0 && (s[0] == '-' || s[0] == '+') then s[1..] else s;
    |d| > 0 && AllDigits(d)
  }

  /** `int(s)` on a str; anything but an optional sign and digits raises ValueError. */
  function ParseInt(s: string): (r: Result<int>)
    ensures r.Ok? <==> IntText(s)
    ensures r.Err? ==> r.error == ValueError(s)
  {
    if |s| > 0 && (s[0] == '-' || s[0] == '+') then
      if |s| > 1 && AllDigits(s[1..])
      then Ok(if s[0] == '-' then -(DigitsValue(s[1..]) as int) else DigitsValue(s[1..]) as int)
      else Err(ValueError(s))
    else if |s| > 0 && AllDigits(s) then Ok(DigitsValue(s))
    else Err(ValueError(s))
  }

  /** `int('{:d}'.format(i)) == i`. */
  lemma ParseFormatInt(i: int)
    ensures ParseInt(FormatInt(i)) == Ok(i)
  {
    if i < 0 {
      assert FormatInt(i)[1..] == NatToString(-i);
    }
  }

  // ---------------------------------------------------------------- query

  /** `[(entity[0], int(entity[1])) for entity in rows]`: the first malformed frequency raises. */
  function ParseFrequencies(rows: seq<(string, string)>): (r: Result<seq<Candidate>>)
    ensures r.Ok? <==> forall i :: 0 <= i < |rows| ==> ParseInt(rows[i].1).Ok?
    ensures r.Ok? ==>
      && |r.value| == |rows|
      && forall i :: 0 <= i < |rows| ==> r.value[i] == (rows[i].0, ParseInt(rows[i].1).value)
  {
    if rows == [] then Ok([])
    else
      assert forall i :: 1 <= i < |rows| ==> rows[i] == rows[1..][i - 1];
      match ParseInt(rows[0].1)
      case Err(e) => Err(e)
      case Ok(f) =>
        match ParseFrequencies(rows[1..])
        case Err(e) => Err(e)
        case Ok(rest) => Ok([(rows[0].0, f)] + rest)
  }

  /** The exception raised is the one of the first malformed frequency. */
  lemma {:induction false} ParseFrequenciesFirstError(rows: seq<(string, string)>)
    requires ParseFrequencies(rows).Err?
    ensures exists i ::
      && 0 <= i < |rows| && ParseInt(rows[i].1).Err?
      && ParseFrequencies(rows).error == ParseInt(rows[i].1).error && forall j :: 0 <= j < i ==> ParseInt(rows[j].1).Ok?
  {
    if ParseInt(rows[0].1).Ok? {
      ParseFrequenciesFirstError(rows[1..]);
      var i :| 0 <= i < |rows[1..]| && ParseInt(rows[1..][i].1).Err?
        && ParseFrequencies(rows[1..]).error == ParseInt(rows[1..][i].1).error && forall j :: 0 <= j < i ==> ParseInt(rows[1..][j].1).Ok?;
      assert forall j :: 1 <= j < i + 1 ==> rows[j] == rows[1..][j - 1];
      assert ParseInt(rows[i + 1].1).Err?;
    }
  }

  /** `EntityLinkingBackendCSV.query(mention)`: the mention's rows in file order with their
      frequencies read by `int()`, or nothing for an unknown mention. */
  function Query(index: Index, mention: string): (r: Result<seq<Candidate>>)
    ensures mention !in index ==> r == Ok([])
    ensures r.Ok? ==>
      && |r.value| == (if mention in index then |index[mention]| else 0)
      && forall k :: 0 <= k < |r.value| ==> r.value[k].0 == index[mention][k].0
    ensures r.Err? ==> mention in index && exists i :: 0 <= i < |index[mention]| && ParseInt(index[mention][i].1).Err?
  {
    if mention in index then ParseFrequencies(index[mention]) else Ok([])
  }

  // ---------------------------------------------------------------- ranking

  /** Frequencies never increase along `cs`. */
  predicate SortedDesc(cs: seq<Candidate>)
  {
    forall i, j :: 0 <= i < j < |cs| ==> cs[i].1 >= cs[j].1
  }

  /** The candidates of frequency `f`, in their order in `cs`. */
  function WithFrequency(cs: seq<Candidate>, f: int): seq<Candidate>
  {
    if cs == [] then []
    else (if cs[0].1 == f then [cs[0]] else []) + WithFrequency(cs[1..], f)
  }

  /** `sum(map(itemgetter(1), cs))`. */
  function Sum(cs: seq<Candidate>): int
  {
    if cs == [] then 0 else cs[0].1 + Sum(cs[1..])
  }

  /** Places `x` before the first candidate whose frequency is not above its own. */
  function Insert(x: Candidate, s: seq<Candidate>): (r: seq<Candidate>)
    requires SortedDesc(s)
    ensures SortedDesc(r) && |r| == |s| + 1
    ensures r[0] == x || (s != [] && r[0] == s[0])
  {
    if s == [] || s[0].1 <= x.1 then
      [x] + s
    else
      var rest := Insert(x, s[1..]);
      assert s == [s[0]] + s[1..];
      SortedCons(s[0], rest);
      [s[0]] + rest
  }

  /** Inserting adds `x` and nothing else, so it adds `x`'s frequency to the sum. */
  lemma {:induction false} InsertContents(x: Candidate, s: seq<Candidate>)
    requires SortedDesc(s)
    ensures multiset(Insert(x, s)) == multiset(s) + multiset{x} && Sum(Insert(x, s)) == x.1 + Sum(s)
  {
    if s != [] && s[0].1 > x.1 {
      InsertContents(x, s[1..]);
      assert s == [s[0]] + s[1..];
    }
  }

  /** A candidate not below the head of a descending sequence may go in front of it. */
  lemma SortedCons(y: Candidate, s: seq<Candidate>)
    requires SortedDesc(s) && (s != [] ==> y.1 >= s[0].1)
    ensures SortedDesc([y] + s)
  {
    var r := [y] + s;
    forall i, j | 0 <= i < j < |r| ensures r[i].1 >= r[j].1 {
      if i == 0 && j > 1 { assert r[j] == s[j - 1]; }
    }
  }

  /** `x` joins the candidates of its own frequency in front, as it came before all of them. */
  lemma {:induction false} InsertStable(x: Candidate, s: seq<Candidate>, f: int)
    requires SortedDesc(s)
    ensures WithFrequency(Insert(x, s), f) == if x.1 == f then [x] + WithFrequency(s, f) else WithFrequency(s, f)
  {
    var r := Insert(x, s);
    if s == [] || s[0].1 <= x.1 {
      assert r[1..] == s;
    } else {
      InsertStable(x, s[1..], f);
      assert r[1..] == Insert(x, s[1..]);
    }
  }

  /** `sorted(cs, key=itemgetter(1), reverse=True)`: Python's sort is stable also when reversed,
      so candidates of equal frequency keep the backend's order. */
  function Rank(cs: seq<Candidate>): (r: seq<Candidate>)
    ensures SortedDesc(r) && |r| == |cs|
  {
    if cs == [] then []
    else
      assert cs == [cs[0]] + cs[1..];
      Insert(cs[0], Rank(cs[1..]))
  }

  /** Ranking reorders the candidates and nothing else. */
  lemma {:induction false} RankContents(cs: seq<Candidate>)
    ensures multiset(Rank(cs)) == multiset(cs) && Sum(Rank(cs)) == Sum(cs)
  {
    if cs != [] {
      var rest := Rank(cs[1..]);
      RankContents(cs[1..]);
      InsertContents(cs[0], rest);
      assert cs == [cs[0]] + cs[1..];
      assert multiset(cs) == multiset{cs[0]} + multiset(cs[1..]);
      assert Sum(cs) == cs[0].1 + Sum(cs[1..]);
    }
  }

  /** Candidates of equal frequency keep the backend's order. */
  lemma {:induction false} RankStable(cs: seq<Candidate>, f: int)
    ensures WithFrequency(Rank(cs), f) == WithFrequency(cs, f)
  {
    if cs != [] {
      RankStable(cs[1..], f);
      InsertStable(cs[0], Rank(cs[1..]), f);
    }
  }

  /** A sorted sequence that keeps every frequency's candidates in their order is `Rank`'s
      result: the stable descending sort is unique. */
  lemma {:induction false} RankUnique(cs: seq<Candidate>, r: seq<Candidate>)
    requires SortedDesc(r) && forall f :: WithFrequency(r, f) == WithFrequency(cs, f)
    ensures r == Rank(cs)
  {
    forall f ensures WithFrequency(r, f) == WithFrequency(Rank(cs), f) {
      RankStable(cs, f);
    }
    SortedUnique(r, Rank(cs));
  }

  /** Two descending sequences with the same candidates per frequency are equal. */
  lemma {:induction false} SortedUnique(a: seq<Candidate>, b: seq<Candidate>)
    requires SortedDesc(a) && SortedDesc(b)
    requires forall f :: WithFrequency(a, f) == WithFrequency(b, f)
    ensures a == b
    decreases |a| + |b|
  {
    if a == [] && b == [] {
    } else if a == [] {
      HasOwnFrequency(b);
      assert false;
    } else if b == [] {
      HasOwnFrequency(a);
      assert false;
    } else {
      SameHead(a, b);
      forall f ensures WithFrequency(a[1..], f) == WithFrequency(b[1..], f) {
        SameTail(a, b, f);
      }
      assert SortedDesc(a[1..]) && SortedDesc(b[1..]);
      SortedUnique(a[1..], b[1..]);
      assert a == [a[0]] + a[1..] && b == [b[0]] + b[1..];
    }
  }

  /** Such sequences start with the same candidate. */
  lemma SameHead(a: seq<Candidate>, b: seq<Candidate>)
    requires SortedDesc(a) && SortedDesc(b) && a != [] && b != []
    requires forall f :: WithFrequency(a, f) == WithFrequency(b, f)
    ensures a[0] == b[0]
  {
    assert a[0].1 == b[0].1 by {
      if a[0].1 < b[0].1 {
        HeadIsTop(a, b[0].1);
      } else if a[0].1 > b[0].1 {
        HeadIsTop(b, a[0].1);
      }
    }
    assert a[0] == WithFrequency(a, a[0].1)[0] == WithFrequency(b, a[0].1)[0] == b[0];
  }

  /** Dropping the same first candidate keeps the candidates per frequency equal. */
  lemma SameTail(a: seq<Candidate>, b: seq<Candidate>, f: int)
    requires a != [] && b != [] && a[0] == b[0] && WithFrequency(a, f) == WithFrequency(b, f)
    ensures WithFrequency(a[1..], f) == WithFrequency(b[1..], f)
  {
    var h := if a[0].1 == f then [a[0]] else [];
    assert WithFrequency(a, f) == h + WithFrequency(a[1..], f);
    assert WithFrequency(b, f) == h + WithFrequency(b[1..], f);
    assert WithFrequency(a[1..], f) == (h + WithFrequency(a[1..], f))[|h|..];
    assert WithFrequency(b[1..], f) == (h + WithFrequency(b[1..], f))[|h|..];
  }

  lemma HasOwnFrequency(s: seq<Candidate>)
    requires |s| > 0
    ensures WithFrequency(s, s[0].1) != []
  {
  }

  /** In a descending sequence, no candidate has a frequency above the first one's. */
  lemma {:induction false} HeadIsTop(s: seq<Candidate>, f: int)
    requires SortedDesc(s) && |s| > 0 && f > s[0].1
    ensures WithFrequency(s, f) == []
  {
    if |s| > 1 {
      assert SortedDesc(s[1..]);
      HeadIsTop(s[1..], f);
    }
  }

  // ---------------------------------------------------------------- truncation and scores

  /** `xs[:n]`: a negative `n` counts from the end. */
  function Take(xs: seq<Candidate>, n: int): (r: seq<Candidate>)
    ensures |r| <= |xs| && r == xs[..|r|]
  {
    if n >= |xs| then xs
    else if n >= 0 then xs[..n]
    else if |xs| + n > 0 then xs[..|xs| + n]
    else []
  }

  function EntityAnnotation(c: Candidate, total: int): Annotation
    requires total != 0
  {
    Annotation(Some(Source), None, Some("resource"), Resource(c.0, c.1 as real / total as real))
  }

  /** One annotation per retained candidate, in order, scored against `total`. */
  function Annotate(top: seq<Candidate>, total: int): (r: seq<Annotation>)
    requires total != 0
    ensures |r| == |top|
    ensures forall i :: 0 <= i < |top| ==> r[i] == EntityAnnotation(top[i], total)
  {
    if top == [] then [] else [EntityAnnotation(top[0], total)] + Annotate(top[1..], total)
  }

  /** What `run` appends to the cell whose content is `mention`: the best `topN` candidates,
      each scored by its frequency divided by the sum over all candidates. */
  function Link(index: Index, topN: int, mention: string): (r: Result<seq<Annotation>>)
    ensures r.Ok? ==> forall a :: a in r.value ==> a.source == Some(Source) && a.task.None? && a.kind == Some("resource")
  {
    match Query(index, mention)
    case Err(e) => Err(e)
    case Ok(found) =>
      var top := Take(Rank(found), topN);
      var total := Sum(found);
      if |top| > 0 && total == 0 then Err(ZeroDivisionError)
      else Ok(if top == [] then [] else Annotate(top, total))
  }

  function Linker(index: Index, topN: int): string -> Result<seq<Annotation>>
  {
    mention => Link(index, topN, mention)
  }

  /** A cell receives `min(top_n, |results|)` annotations (Python slicing for a negative
      `top_n`), unless the division fails; an unknown mention receives none. */
  lemma LinkCount(index: Index, topN: int, mention: string, found: seq<Candidate>)
    requires Query(index, mention) == Ok(found)
    requires Link(index, topN, mention).Ok?
    ensures |Link(index, topN, mention).value|
         == if topN >= 0 then (if topN < |found| then topN else |found|)
            else (if |found| + topN > 0 then |found| + topN else 0)
    ensures mention !in index ==> Link(index, topN, mention) == Ok([])
  {
  }

  /** The i-th annotation is the i-th candidate of the stable descending sort, scored by its
      share of the frequencies of all candidates, not only of the retained ones. */
  lemma LinkRanked(index: Index, topN: int, mention: string, found: seq<Candidate>, i: nat)
    requires Query(index, mention) == Ok(found)
    requires Link(index, topN, mention).Ok? && i < |Link(index, topN, mention).value|
    ensures Sum(found) != 0
    ensures Link(index, topN, mention).value[i].body
         == Resource(Rank(found)[i].0, Rank(found)[i].1 as real / Sum(found) as real)
  {
  }

  /** The division by the frequency sum fails exactly when something is retained and the
      frequencies of all candidates add up to zero. */
  lemma LinkFails(index: Index, topN: int, mention: string, found: seq<Candidate>)
    requires Query(index, mention) == Ok(found)
    ensures Link(index, topN, mention).Err?
        <==> |Take(Rank(found), topN)| > 0 && Sum(found) == 0
    ensures Link(index, topN, mention).Err? ==> Link(index, topN, mention).error == ZeroDivisionError
  {
  }

  /** The scores of a cell's annotations. */
  function Scores(annos: seq<Annotation>): real
  {
    if annos == [] then 0.0
    else (if annos[0].body.Resource? then annos[0].body.frequency else 0.0) + Scores(annos[1..])
  }

  lemma {:induction false} ScoresOfAnnotate(top: seq<Candidate>, total: int)
    requires total != 0
    ensures Scores(Annotate(top, total)) == Sum(top) as real / total as real
  {
    if top != [] {
      var a := Annotate(top, total);
      assert a[1..] == Annotate(top[1..], total);
      ScoresOfAnnotate(top[1..], total);
      SumOfQuotients(top[0].1 as real, Sum(top[1..]) as real, total as real);
    }
  }

  lemma SumOfQuotients(x: real, y: real, d: real)
    requires d != 0.0
    ensures x / d + y / d == (x + y) / d
  {
  }

  predicate NonNegative(cs: seq<Candidate>) { forall i :: 0 <= i < |cs| ==> cs[i].1 >= 0 }

  lemma {:induction false} PrefixSum(cs: seq<Candidate>, k: nat)
    requires NonNegative(cs) && k <= |cs|
    ensures 0 <= Sum(cs[..k]) <= Sum(cs)
  {
    if k > 0 {
      assert cs[..k][1..] == cs[1..][..k - 1];
      PrefixSum(cs[1..], k - 1);
    } else {
      NonNegativeSum(cs);
    }
  }

  lemma {:induction false} NonNegativeSum(cs: seq<Candidate>)
    requires NonNegative(cs)
    ensures Sum(cs) >= 0
  {
    if cs != [] {
      NonNegativeSum(cs[1..]);
    }
  }

  /** With non-negative frequencies, the scores a cell receives add up to at most 1. */
  lemma {:induction false} ScoresAtMostOne(index: Index, topN: int, mention: string, found: seq<Candidate>)
    requires Query(index, mention) == Ok(found) && NonNegative(found)
    requires Link(index, topN, mention).Ok?
    ensures 0.0 <= Scores(Link(index, topN, mention).value) <= 1.0
  {
    var ranked := Rank(found);
    var top := Take(ranked, topN);
    var total := Sum(found);
    if top != [] {
      RankContents(found);
      assert forall i :: 0 <= i < |ranked| ==> ranked[i] in multiset(found);
      assert NonNegative(ranked);
      PrefixSum(ranked, |top|);
      ScoresOfAnnotate(top, total);
      QuotientAtMostOne(Sum(top) as real, total as real);
    }
  }

  lemma QuotientAtMostOne(x: real, d: real)
    requires 0.0 <= x <= d && d > 0.0
    ensures 0.0 <= x / d <= 1.0
  {
  }

  // ---------------------------------------------------------------- run

  /** `EntityLinking.run`: every cell, column by column, gains `Link` of its content; the first
      exception ends the run, leaving the earlier cells annotated and the failing cell created. */
  method Run(t: Table, index: Index, topN: int) returns (r: Result<bool>, ghost k: nat)
    requires t.Valid()
    modifies t
    ensures r.Ok? ==> r.value
    ensures r.Ok? ==> forall c, row :: 0 <= c < t.numCols && 0 <= row < t.numRows ==>
      Link(index, topN, t.Content(c, row)).Ok?
      && Get(t.annotations, Key(Cell(c, row))) == Get(old(t.annotations), Key(Cell(c, row))) + Link(index, topN, t.Content(c, row)).value
    ensures r.Ok? ==> forall key :: key !in CellKeys(t.numCols, t.numRows) ==> Get(t.annotations, key) == Get(old(t.annotations), key)
    ensures var outs := Outcomes(Linker(index, topN), t.CellContents());
      r.Ok? ==>
        && (forall i :: 0 <= i < |outs| ==> outs[i].Ok?)
        && t.annotations == AppendAll(old(t.annotations), CellKeys(t.numCols, t.numRows), Values(outs))
    ensures r.Err? ==> StoppedAt(old(t.annotations), t.annotations, CellKeys(t.numCols, t.numRows),
                                 Outcomes(Linker(index, topN), t.CellContents()), k, r.error)
  {
    var failure;
    failure, k := t.AnnotateCells(Linker(index, topN));
    if failure.Some? {
      r := Err(failure.value);
    } else {
      r := Ok(true);
    }
  }
}
