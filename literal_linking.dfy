/** `LiteralLinking` (wtu/task/literallinking.py): within each row, the literal hypotheses of the
    cells without entity links are compared with the property values the knowledge base holds
    for the linked entities, and every match becomes a `property` annotation on the literal's
    cell, with references to the two annotations it relates. */
module LiteralLinking {
  import opened Common
  import opened Text
  import opened Annotations
  import opened Tables
  import Numbers

  const Source := "LiteralLinking"
  const ElSource := "EntityLinking"
  const LnSource := "LiteralNormalization"

  /** One row of the backend's index file: `(property_uri, literal_type, literal_value)`. */
  type Property = (string, string, string)

  /** The CSV backend's index: each entity URI with its properties in file order. */
  type Index = map<string, seq<Property>>

  /** `LiteralLinkingBackendCSV.query`: the entity's rows, or none for an unknown entity. */
  function Query(index: Index, entity: string): (r: seq<Property>)
    ensures entity in index ==> r == index[entity]
    ensures entity !in index ==> r == []
  {
    if entity in index then index[entity] else []
  }

  // ---------------------------------------------------------------- match_literal

  /** `float(s)`: the numeral pattern of `Numbers` with '.' as the only decimal separator. */
  function FloatValue(s: string): (r: Option<real>)
    ensures Contains(s, ',') ==> r.None?
  {
    if Contains(s, ',') then None else Numbers.Parse(s)
  }

  /** What a property's literal must satisfy to match. */
  datatype Criterion = LiteralIs(text: string) | ValueIs(v: real)

  predicate Satisfied(c: Criterion, literal: string)
  {
    match c
    case LiteralIs(t) => literal == t
    case ValueIs(v) => FloatValue(literal) == Some(v)
  }

  /** The URIs of the properties whose literal satisfies `c`, in the backend's order and with
      repeats kept. */
  function Matching(props: seq<Property>, c: Criterion): (r: seq<string>)
    ensures |r| <= |props|
    ensures forall u :: u in r <==> exists k :: 0 <= k < |props| && props[k].0 == u && Satisfied(c, props[k].2)
  {
    if props == [] then []
    else
      var rest := Matching(props[1..], c);
      assert forall k :: 1 <= k < |props| ==> props[k] == props[1..][k - 1];
      (if Satisfied(c, props[0].2) then [props[0].0] else []) + rest
  }

  /** Matching keeps the backend's order: the matches of two runs of rows are those of the first
      run followed by those of the second, so a row listed twice matches twice. */
  lemma {:induction false} MatchingAppend(a: seq<Property>, b: seq<Property>, c: Criterion)
    ensures Matching(a + b, c) == Matching(a, c) + Matching(b, c)
    decreases |a|
  {
    if a == [] {
      assert a + b == b;
    } else {
      assert (a + b)[1..] == a[1..] + b;
      MatchingAppend(a[1..], b, c);
    }
  }

  /** One more row of the backend adds its URI at the end exactly when its literal satisfies `c`. */
  lemma MatchingSnoc(a: seq<Property>, p: Property, c: Criterion)
    ensures Matching(a + [p], c) == Matching(a, c) + (if Satisfied(c, p.2) then [p.0] else [])
  {
    MatchingAppend(a, [p], c);
  }

  /** Some property's literal is read by `float()`. */
  predicate AnyFloat(props: seq<Property>)
  {
    exists k :: 0 <= k < |props| && FloatValue(props[k].2).Some?
  }

  /** `'{:d}-{:02d}-{:02d}'.format(year, month, day_of_month)`. */
  function DateText(year: int, month: int, day: int): string
  {
    FormatInt(year) + "-" + Pad2(month) + "-" + Pad2(day)
  }

  /** `LiteralLinking.match_literal(ln_anno, properties)`: reading a key the annotation lacks
      raises KeyError, formatting a missing date part raises TypeError. */
  function MatchLiteral(a: Annotation, props: seq<Property>): (r: Result<seq<string>>)
    ensures r.Ok? ==> forall u :: u in r.value ==> exists k :: 0 <= k < |props| && props[k].0 == u
  {
    match a.kind
    case None => Err(KeyError("type"))
    case Some(kind) =>
      if kind == "numeric" then
        if a.body.Number? || !AnyFloat(props) then Ok([]) else Err(KeyError("number"))
      else if kind == "date" then
        match a.body
        case DateParts(y, mo, d, _) =>
          if y.None? || mo.None? || d.None? then Err(TypeError("NoneType"))
          else Ok(Matching(props, LiteralIs(DateText(y.value, mo.value, d.value))))
        case _ => Err(KeyError("year"))
      else if kind == "value and unit" then
        match a.body
        case Quantity(_, normalized, _, _, _) => Ok(Matching(props, ValueIs(normalized)))
        case _ => if AnyFloat(props) then Err(KeyError("value_normalized")) else Ok([])
      else Ok([])
  }

  /** A `numeric` hypothesis never matches: that branch compares and discards. */
  lemma NumericNeverMatches(x: real, props: seq<Property>)
    ensures MatchLiteral(Annotation(Some(LnSource), None, Some("numeric"), Number(x)), props) == Ok([])
  {
  }

  /** A complete `date` hypothesis matches exactly the properties whose literal is the date
      written `Y-MM-DD`. */
  lemma DateMatches(a: Annotation, props: seq<Property>, y: int, m: int, d: int)
    requires a.kind == Some("date") && a.body.DateParts?
    requires a.body.year == Some(y) && a.body.month == Some(m) && a.body.dayOfMonth == Some(d)
    ensures MatchLiteral(a, props).Ok?
    ensures forall u :: u in MatchLiteral(a, props).value <==>
      exists k :: 0 <= k < |props| && props[k].0 == u && props[k].2 == DateText(y, m, d)
  {
    assert "date"[0] != "numeric"[0];
    assert MatchLiteral(a, props) == Ok(Matching(props, LiteralIs(DateText(y, m, d))));
  }

  /** A `date` hypothesis lacking its year, month or day raises before any property is read. */
  lemma DateNeedsAllParts(a: Annotation, props: seq<Property>)
    requires a.kind == Some("date") && a.body.DateParts?
    requires a.body.year.None? || a.body.month.None? || a.body.dayOfMonth.None?
    ensures MatchLiteral(a, props) == Err(TypeError("NoneType"))
  {
  }

  /** A `value and unit` hypothesis matches exactly the properties whose literal reads as a
      number equal to the normalised value; literals that are not numbers are skipped. */
  lemma QuantityMatches(a: Annotation, props: seq<Property>)
    requires a.kind == Some("value and unit") && a.body.Quantity?
    ensures MatchLiteral(a, props).Ok?
    ensures forall u :: u in MatchLiteral(a, props).value <==>
      exists k :: 0 <= k < |props| && props[k].0 == u && FloatValue(props[k].2) == Some(a.body.valueNormalized)
  {
    assert "value and unit"[0] != "numeric"[0] && "value and unit"[0] != "date"[0];
    assert MatchLiteral(a, props) == Ok(Matching(props, ValueIs(a.body.valueNormalized)));
  }

  /** Any other annotation type matches nothing. */
  lemma OtherKindsMatchNothing(a: Annotation, props: seq<Property>)
    requires a.kind.Some? && a.kind.value != "numeric" && a.kind.value != "date" && a.kind.value != "value and unit"
    ensures MatchLiteral(a, props) == Ok([])
  {
  }

  /** Month and day are zero-padded to two digits. */
  lemma DateTextPadded()
    ensures DateText(2019, 2, 1) == "2019-02-01"
  {
    Year2019();
    assert Pad2(2) == ['0', DigitChar(2)] == "02";
    assert Pad2(1) == ['0', DigitChar(1)] == "01";
  }

  lemma Year2019()
    ensures FormatInt(2019) == "2019"
  {
    assert DigitChar(2) == '2' && DigitChar(0) == '0' && DigitChar(1) == '1' && DigitChar(9) == '9';
    assert NatToString(2) == "2";
    assert NatToString(20) == NatToString(2) + "0";
    assert NatToString(201) == NatToString(20) + "1";
    assert NatToString(2019) == NatToString(201) + "9";
  }

  // ---------------------------------------------------------------- one row

  /** `find_annotations(anno_source=...)` on a cell's list. */
  function Found(m: Store, row: nat, c: nat, source: string): Result<seq<Annotation>>
  {
    FindAnnotations(Get(m, Key(Cell(c, row))), Some(source), None, None)
  }

  /** What the cell loop makes of one cell: an entity cell (with its EntityLinking annotations),
      a literal cell (with its LiteralNormalization annotations) or neither. */
  datatype Role = EntityCell(annos: seq<Annotation>) | LiteralCell(annos: seq<Annotation>) | Neither

  /** The role of a cell whose list is `annos`: a cell with EntityLinking annotations is an
      entity cell and is not searched further. */
  function RoleIn(annos: seq<Annotation>): (r: Result<Role>)
    ensures r.Ok? && r.value.LiteralCell? ==> FindAnnotations(annos, Some(ElSource), None, None) == Ok([])
  {
    match FindAnnotations(annos, Some(ElSource), None, None)
    case Err(e) => Err(e)
    case Ok(el) =>
      if el != [] then Ok(EntityCell(el))
      else
        match FindAnnotations(annos, Some(LnSource), None, None)
        case Err(e) => Err(e)
        case Ok(ln) => Ok(if ln != [] then LiteralCell(ln) else Neither)
  }

  /** The role of cell `c` of `row` in store `m`. */
  function RoleOf(m: Store, row: nat, c: nat): (r: Result<Role>)
    ensures r.Ok? && r.value.LiteralCell? ==> Found(m, row, c, ElSource) == Ok([])
  {
    RoleIn(Get(m, Key(Cell(c, row))))
  }

  /** A cell of the row together with the annotations the cell loop found on it. */
  datatype Linked = Linked(col: nat, annos: seq<Annotation>)

  /** The roles of the first `n` cells of `row`, in column order. */
  function Roles(m: Store, row: nat, n: nat): (rs: seq<Result<Role>>)
    ensures |rs| == n && forall c :: 0 <= c < n ==> rs[c] == RoleOf(m, row, c)
  {
    seq(n, c requires 0 <= c < n => RoleOf(m, row, c))
  }

  /** The cell loop over cells with roles `rs` (column `c` has role `rs[c]`): `(el_cells,
      ln_cells)`, or the first exception a lookup raised. */
  function Split(rs: seq<Result<Role>>): (r: Result<(seq<Linked>, seq<Linked>)>)
    decreases |rs|
  {
    if rs == [] then Ok(([], []))
    else
      var c := |rs| - 1;
      match Split(rs[..c])
      case Err(e) => Err(e)
      case Ok(p) =>
        match rs[c]
        case Err(e) => Err(e)
        case Ok(role) => Ok(Extend(p, c, role))
  }

  /** Adding cell `c` with role `role` to `(el_cells, ln_cells)`. */
  function Extend(p: (seq<Linked>, seq<Linked>), c: nat, role: Role): (seq<Linked>, seq<Linked>)
  {
    match role
    case EntityCell(el) => (p.0 + [Linked(c, el)], p.1)
    case LiteralCell(ln) => (p.0, p.1 + [Linked(c, ln)])
    case Neither => p
  }

  /** The cell loop of one row. */
  function Partition(m: Store, row: nat, numCols: nat): Result<(seq<Linked>, seq<Linked>)>
  {
    Split(Roles(m, row, numCols))
  }

  /** `el_cells` lists, in column order, exactly the cells with EntityLinking annotations, and
      `ln_cells` exactly the other cells with LiteralNormalization annotations. */
  ghost predicate Partitioned(rs: seq<Result<Role>>, els: seq<Linked>, lns: seq<Linked>)
  {
    && (forall i :: 0 <= i < |els| ==> els[i].col < |rs| && rs[els[i].col] == Ok(EntityCell(els[i].annos)))
    && (forall i :: 0 <= i < |lns| ==> lns[i].col < |rs| && rs[lns[i].col] == Ok(LiteralCell(lns[i].annos)))
    && (forall i, j :: 0 <= i < j < |els| ==> els[i].col < els[j].col)
    && (forall i, j :: 0 <= i < j < |lns| ==> lns[i].col < lns[j].col)
    && (forall c :: 0 <= c < |rs| && rs[c].Ok? && rs[c].value.EntityCell? ==>
          exists i :: 0 <= i < |els| && els[i].col == c)
    && (forall c :: 0 <= c < |rs| && rs[c].Ok? && rs[c].value.LiteralCell? ==>
          exists i :: 0 <= i < |lns| && lns[i].col == c)
  }

  /** The cell loop raises exactly when some cell's lookup raises, and then with the exception
      of the first such cell. */
  lemma {:induction false} SplitFails(rs: seq<Result<Role>>)
    ensures var r := Split(rs);
      && (r.Ok? <==> forall c :: 0 <= c < |rs| ==> rs[c].Ok?)
      && (r.Err? ==> exists c :: 0 <= c < |rs| && rs[c] == Err(r.error) && forall d :: 0 <= d < c ==> rs[d].Ok?)
    decreases |rs|
  {
    if rs != [] {
      var c := |rs| - 1;
      SplitFails(rs[..c]);
      assert forall d :: 0 <= d < c ==> rs[..c][d] == rs[d];
    }
  }

  /** Otherwise it splits the row as `Partitioned` says. */
  lemma {:induction false} SplitSound(rs: seq<Result<Role>>)
    requires Split(rs).Ok?
    ensures Partitioned(rs, Split(rs).value.0, Split(rs).value.1)
    decreases |rs|
  {
    if rs != [] {
      var c := |rs| - 1;
      SplitSound(rs[..c]);
      var p := Split(rs[..c]).value;
      SplitStep(rs, p.0, p.1);
    }
  }

  lemma SplitStep(rs: seq<Result<Role>>, els: seq<Linked>, lns: seq<Linked>)
    requires rs != [] && Partitioned(rs[..|rs| - 1], els, lns) && rs[|rs| - 1].Ok?
    ensures var c, role := |rs| - 1, rs[|rs| - 1].value;
      && (role.EntityCell? ==> Partitioned(rs, els + [Linked(c, role.annos)], lns))
      && (role.LiteralCell? ==> Partitioned(rs, els, lns + [Linked(c, role.annos)]))
      && (role.Neither? ==> Partitioned(rs, els, lns))
  {
    var c := |rs| - 1;
    assert forall d :: 0 <= d < c ==> rs[..c][d] == rs[d];
    match rs[c].value
    case EntityCell(annos) => SplitStepEntity(rs, els, lns, annos);
    case LiteralCell(annos) => SplitStepLiteral(rs, els, lns, annos);
    case Neither =>
  }

  lemma SplitStepEntity(rs: seq<Result<Role>>, els: seq<Linked>, lns: seq<Linked>, annos: seq<Annotation>)
    requires rs != [] && Partitioned(rs[..|rs| - 1], els, lns) && rs[|rs| - 1] == Ok(EntityCell(annos))
    requires forall d :: 0 <= d < |rs| - 1 ==> rs[..|rs| - 1][d] == rs[d]
    ensures Partitioned(rs, els + [Linked(|rs| - 1, annos)], lns)
  {
    var els' := els + [Linked(|rs| - 1, annos)];
    assert els'[|els|].col == |rs| - 1;
    forall d | 0 <= d < |rs| && rs[d].Ok? && rs[d].value.EntityCell?
      ensures exists i :: 0 <= i < |els'| && els'[i].col == d
    {
      if d < |rs| - 1 {
        var i :| 0 <= i < |els| && els[i].col == d;
        assert els'[i] == els[i];
      }
    }
  }

  lemma SplitStepLiteral(rs: seq<Result<Role>>, els: seq<Linked>, lns: seq<Linked>, annos: seq<Annotation>)
    requires rs != [] && Partitioned(rs[..|rs| - 1], els, lns) && rs[|rs| - 1] == Ok(LiteralCell(annos))
    requires forall d :: 0 <= d < |rs| - 1 ==> rs[..|rs| - 1][d] == rs[d]
    ensures Partitioned(rs, els, lns + [Linked(|rs| - 1, annos)])
  {
    var lns' := lns + [Linked(|rs| - 1, annos)];
    assert lns'[|lns|].col == |rs| - 1;
    forall d | 0 <= d < |rs| && rs[d].Ok? && rs[d].value.LiteralCell?
      ensures exists i :: 0 <= i < |lns'| && lns'[i].col == d
    {
      if d < |rs| - 1 {
        var i :| 0 <= i < |lns| && lns[i].col == d;
        assert lns'[i] == lns[i];
      }
    }
  }

  // ---------------------------------------------------------------- the nested link loops

  /** An annotation to append to the literal cell in column `col` of the row. */
  datatype Added = Added(col: nat, anno: Annotation)

  /** `for i, x in enumerate(xs): <append what f(i, x) makes>`, ending at the first exception. */
  function Collect<T>(xs: seq<T>, f: (nat, T) -> Result<seq<Added>>): (r: Result<seq<Added>>)
    decreases |xs|
  {
    if xs == [] then Ok([])
    else
      match Collect(xs[..|xs| - 1], f)
      case Err(e) => Err(e)
      case Ok(acc) =>
        match f(|xs| - 1, xs[|xs| - 1])
        case Err(e) => Err(e)
        case Ok(more) => Ok(acc + more)
  }

  /** The loop raises exactly when some step raises, and then with the first step's exception. */
  lemma {:induction false} CollectFails<T>(xs: seq<T>, f: (nat, T) -> Result<seq<Added>>)
    ensures var r := Collect(xs, f);
      && (r.Ok? <==> forall i :: 0 <= i < |xs| ==> f(i, xs[i]).Ok?)
      && (r.Err? ==> exists i :: 0 <= i < |xs| && f(i, xs[i]) == Err(r.error) && forall j :: 0 <= j < i ==> f(j, xs[j]).Ok?)
    decreases |xs|
  {
    if xs != [] {
      var n := |xs| - 1;
      CollectFails(xs[..n], f);
      assert forall j :: 0 <= j < n ==> xs[..n][j] == xs[j];
    }
  }

  /** Otherwise it appends exactly what the steps make. */
  lemma {:induction false} CollectMember<T>(xs: seq<T>, f: (nat, T) -> Result<seq<Added>>, x: Added)
    requires Collect(xs, f).Ok?
    ensures x in Collect(xs, f).value <==> exists i :: 0 <= i < |xs| && f(i, xs[i]).Ok? && x in f(i, xs[i]).value
    decreases |xs|
  {
    if xs != [] {
      var n := |xs| - 1;
      CollectMember(xs[..n], f, x);
      assert forall j :: 0 <= j < n ==> xs[..n][j] == xs[j];
    }
  }

  /** The lists `xss`, one after the other. */
  function Flatten(xss: seq<seq<Added>>): (r: seq<Added>)
    decreases |xss|
  {
    if xss == [] then [] else Flatten(xss[..|xss| - 1]) + xss[|xss| - 1]
  }

  /** What each step of the loop over `xs` makes, or nothing for a step that raises. */
  function Steps<T>(xs: seq<T>, f: (nat, T) -> Result<seq<Added>>): (r: seq<seq<Added>>)
    ensures |r| == |xs| && forall i :: 0 <= i < |xs| && f(i, xs[i]).Ok? ==> r[i] == f(i, xs[i]).value
  {
    seq(|xs|, i requires 0 <= i < |xs| => if f(i, xs[i]).Ok? then f(i, xs[i]).value else [])
  }

  /** A loop that raises nothing appends what its steps make, step after step and each step's
      annotations in their own order, repeats included. */
  lemma {:induction false} CollectFlatten<T>(xs: seq<T>, f: (nat, T) -> Result<seq<Added>>)
    requires Collect(xs, f).Ok?
    ensures Collect(xs, f).value == Flatten(Steps(xs, f))
    decreases |xs|
  {
    if xs != [] {
      var n := |xs| - 1;
      CollectFlatten(xs[..n], f);
      assert Steps(xs, f)[..n] == Steps(xs[..n], f);
    }
  }

  /** A `property` annotation relating the EL annotation `elRef` and the LN annotation `lnRef`. */
  function LinkAnnotation(uri: string, elRef: string, lnRef: string): Annotation
  {
    Annotation(Some(Source), None, Some("property"), PropertyLink(uri, elRef, lnRef))
  }

  /** `'{:d}:{:d}/{:d}'.format(*cell.idx, i)`: the `i`-th annotation of its source on cell `(c, row)`. */
  function Ref(c: nat, row: nat, i: nat): string
  {
    Key(Cell(c, row)) + "/" + FormatInt(i)
  }

  /** The `uri` key of an annotation, if it has one. */
  function UriOf(b: Body): Option<string>
  {
    match b
    case Resource(uri, _) => Some(uri)
    case PropertyLink(uri, _, _) => Some(uri)
    case _ => None
  }

  /** The innermost loop: one annotation per property matching LN annotation `j` of cell `col`. */
  function HypothesisLinks(col: nat, row: nat, j: nat, a: Annotation, props: seq<Property>, elRef: string): (r: Result<seq<Added>>)
    ensures r.Ok? <==> MatchLiteral(a, props).Ok?
    ensures r.Err? ==> r.error == MatchLiteral(a, props).error
    ensures r.Ok? ==> var us := MatchLiteral(a, props).value;
      && |r.value| == |us|
      && forall k :: 0 <= k < |us| ==> r.value[k] == Added(col, LinkAnnotation(us[k], elRef, Ref(col, row, j)))
  {
    match MatchLiteral(a, props)
    case Err(e) => Err(e)
    case Ok(us) => Ok(seq(|us|, k requires 0 <= k < |us| => Added(col, LinkAnnotation(us[k], elRef, Ref(col, row, j)))))
  }

  /** The loop over one literal cell's LN annotations. */
  function LiteralCellLinks(lc: Linked, row: nat, props: seq<Property>, elRef: string): Result<seq<Added>>
  {
    Collect(lc.annos, (j: nat, a: Annotation) => HypothesisLinks(lc.col, row, j, a, props, elRef))
  }

  /** The loop over the literal cells, for one EL annotation with properties `props`. */
  function LiteralCellsLinks(lns: seq<Linked>, row: nat, props: seq<Property>, elRef: string): Result<seq<Added>>
  {
    Collect(lns, (l: nat, lc: Linked) => LiteralCellLinks(lc, row, props, elRef))
  }

  /** EL annotation `i` of entity cell `col`: its `uri` is looked up, then the literal cells are
      matched against the entity's properties. */
  function EntityAnnotationLinks(col: nat, row: nat, i: nat, a: Annotation, lns: seq<Linked>, index: Index): (r: Result<seq<Added>>)
    ensures UriOf(a.body).None? ==> r == Err(KeyError("uri"))
  {
    match UriOf(a.body)
    case None => Err(KeyError("uri"))
    case Some(uri) => LiteralCellsLinks(lns, row, Query(index, uri), Ref(col, row, i))
  }

  /** The loop over one entity cell's EL annotations. */
  function EntityCellLinks(ec: Linked, lns: seq<Linked>, row: nat, index: Index): Result<seq<Added>>
  {
    Collect(ec.annos, (i: nat, a: Annotation) => EntityAnnotationLinks(ec.col, row, i, a, lns, index))
  }

  /** The four nested loops of one row: what they append, in order, or the first exception. */
  function RowLinks(els: seq<Linked>, lns: seq<Linked>, row: nat, index: Index): Result<seq<Added>>
  {
    Collect(els, (e: nat, ec: Linked) => EntityCellLinks(ec, lns, row, index))
  }

  /** `x` is the link made for property match `x.anno.body.uri` of LN annotation `j` of cell `lc`
      against properties `props`, for the EL annotation `elRef`. */
  predicate MatchLink(lc: Linked, j: nat, row: nat, props: seq<Property>, elRef: string, x: Added)
    requires j < |lc.annos|
  {
    && MatchLiteral(lc.annos[j], props).Ok?
    && x.col == lc.col
    && x.anno.body.PropertyLink?
    && x.anno == LinkAnnotation(x.anno.body.uri, elRef, Ref(lc.col, row, j))
    && x.anno.body.uri in MatchLiteral(lc.annos[j], props).value
  }

  /** `x` is the link made for LN annotation `j` of cell `lc` and EL annotation `i` of cell `ec`. */
  predicate LinkFrom(ec: Linked, i: nat, lc: Linked, j: nat, row: nat, index: Index, x: Added)
    requires i < |ec.annos| && j < |lc.annos|
  {
    && UriOf(ec.annos[i].body).Some?
    && MatchLink(lc, j, row, Query(index, UriOf(ec.annos[i].body).value), Ref(ec.col, row, i), x)
  }

  /** Some EL annotation of some entity cell and some LN annotation of some literal cell make `x`. */
  ghost predicate Justified(els: seq<Linked>, lns: seq<Linked>, row: nat, index: Index, x: Added)
  {
    exists e, i, l, j :: 0 <= e < |els| && 0 <= i < |els[e].annos| && 0 <= l < |lns| && 0 <= j < |lns[l].annos|
      && LinkFrom(els[e], i, lns[l], j, row, index, x)
  }

  lemma HypothesisLinksMember(lc: Linked, j: nat, row: nat, props: seq<Property>, elRef: string, x: Added)
    requires j < |lc.annos| && HypothesisLinks(lc.col, row, j, lc.annos[j], props, elRef).Ok?
    ensures x in HypothesisLinks(lc.col, row, j, lc.annos[j], props, elRef).value <==> MatchLink(lc, j, row, props, elRef, x)
  {
    var us := MatchLiteral(lc.annos[j], props).value;
    var xs := HypothesisLinks(lc.col, row, j, lc.annos[j], props, elRef).value;
    if MatchLink(lc, j, row, props, elRef, x) {
      var k :| 0 <= k < |us| && us[k] == x.anno.body.uri;
      assert xs[k] == x;
    }
  }

  /** For one EL annotation, the links are exactly those of the matches of the literal cells'
      LN annotations. */
  lemma LiteralCellsMember(lns: seq<Linked>, row: nat, props: seq<Property>, elRef: string, x: Added)
    requires LiteralCellsLinks(lns, row, props, elRef).Ok?
    ensures x in LiteralCellsLinks(lns, row, props, elRef).value <==>
      exists l, j :: 0 <= l < |lns| && 0 <= j < |lns[l].annos| && MatchLink(lns[l], j, row, props, elRef, x)
  {
    var fl := (l: nat, lc: Linked) => LiteralCellLinks(lc, row, props, elRef);
    CollectFails(lns, fl);
    CollectMember(lns, fl, x);
    forall l | 0 <= l < |lns|
      ensures x in LiteralCellLinks(lns[l], row, props, elRef).value <==>
        exists j :: 0 <= j < |lns[l].annos| && MatchLink(lns[l], j, row, props, elRef, x)
    {
      var lc := lns[l];
      var fh := (j: nat, a: Annotation) => HypothesisLinks(lc.col, row, j, a, props, elRef);
      CollectFails(lc.annos, fh);
      CollectMember(lc.annos, fh, x);
      forall j | 0 <= j < |lc.annos|
        ensures x in fh(j, lc.annos[j]).value <==> MatchLink(lc, j, row, props, elRef, x)
      {
        HypothesisLinksMember(lc, j, row, props, elRef, x);
      }
    }
  }

  /** For one entity cell, the links are exactly those its EL annotations make. */
  lemma EntityCellMember(ec: Linked, lns: seq<Linked>, row: nat, index: Index, x: Added)
    requires EntityCellLinks(ec, lns, row, index).Ok?
    ensures x in EntityCellLinks(ec, lns, row, index).value <==>
      exists i, l, j :: 0 <= i < |ec.annos| && 0 <= l < |lns| && 0 <= j < |lns[l].annos| && LinkFrom(ec, i, lns[l], j, row, index, x)
  {
    var fa := (i: nat, a: Annotation) => EntityAnnotationLinks(ec.col, row, i, a, lns, index);
    CollectFails(ec.annos, fa);
    CollectMember(ec.annos, fa, x);
    forall i | 0 <= i < |ec.annos|
      ensures x in fa(i, ec.annos[i]).value <==>
        exists l, j :: 0 <= l < |lns| && 0 <= j < |lns[l].annos| && LinkFrom(ec, i, lns[l], j, row, index, x)
    {
      EntityAnnotationMember(ec, i, lns, row, index, x);
    }
  }

  lemma EntityAnnotationMember(ec: Linked, i: nat, lns: seq<Linked>, row: nat, index: Index, x: Added)
    requires i < |ec.annos| && EntityAnnotationLinks(ec.col, row, i, ec.annos[i], lns, index).Ok?
    ensures x in EntityAnnotationLinks(ec.col, row, i, ec.annos[i], lns, index).value <==>
      exists l, j :: 0 <= l < |lns| && 0 <= j < |lns[l].annos| && LinkFrom(ec, i, lns[l], j, row, index, x)
  {
    var uri := UriOf(ec.annos[i].body).value;
    var props, elRef := Query(index, uri), Ref(ec.col, row, i);
    LiteralCellsMember(lns, row, props, elRef, x);
    forall l, j | 0 <= l < |lns| && 0 <= j < |lns[l].annos|
      ensures LinkFrom(ec, i, lns[l], j, row, index, x) == MatchLink(lns[l], j, row, props, elRef, x)
    {
    }
  }

  /** The loops of a row that raise nothing append exactly the justified links. */
  lemma RowLinksMember(els: seq<Linked>, lns: seq<Linked>, row: nat, index: Index, x: Added)
    requires RowLinks(els, lns, row, index).Ok?
    ensures x in RowLinks(els, lns, row, index).value <==> Justified(els, lns, row, index, x)
  {
    var fe := (e: nat, ec: Linked) => EntityCellLinks(ec, lns, row, index);
    CollectFails(els, fe);
    CollectMember(els, fe, x);
    forall e | 0 <= e < |els|
      ensures x in fe(e, els[e]).value <==>
        exists i, l, j :: 0 <= i < |els[e].annos| && 0 <= l < |lns| && 0 <= j < |lns[l].annos| && LinkFrom(els[e], i, lns[l], j, row, index, x)
    {
      EntityCellMember(els[e], lns, row, index, x);
    }
  }

  // ---------------------------------------------------------------- rows and the whole table

  /** What one row appends, in order: nothing unless it has both an entity cell and a literal
      cell, otherwise what its nested loops append. */
  function RowAppends(m: Store, row: nat, numCols: nat, index: Index): Result<seq<Added>>
  {
    match Partition(m, row, numCols)
    case Err(e) => Err(e)
    case Ok(p) => if p.0 == [] || p.1 == [] then Ok([]) else RowLinks(p.0, p.1, row, index)
  }

  function AddedKeys(xs: seq<Added>, row: nat): (ks: seq<string>)
    ensures |ks| == |xs| && forall i :: 0 <= i < |xs| ==> ks[i] == Key(Cell(xs[i].col, row))
  {
    seq(|xs|, i requires 0 <= i < |xs| => Key(Cell(xs[i].col, row)))
  }

  function AddedLists(xs: seq<Added>): (adds: seq<seq<Annotation>>)
    ensures |adds| == |xs| && forall i :: 0 <= i < |xs| ==> adds[i] == [xs[i].anno]
  {
    seq(|xs|, i requires 0 <= i < |xs| => [xs[i].anno])
  }

  /** One iteration of the row loop: every cell of the row is read (creating its key), then the
      row's links are appended to their literal cells. */
  function RowStep(m: Store, row: nat, numCols: nat, index: Index): Result<Store>
  {
    match RowAppends(m, row, numCols, index)
    case Err(e) => Err(e)
    case Ok(xs) => Ok(AppendAll(TouchAll(m, KeysOf(RowCells(row, numCols))), AddedKeys(xs, row), AddedLists(xs)))
  }

  /** `for row in table.rows(): step(row)` over the first `n` rows, ending at the first exception. */
  function RowLoop(m: Store, n: nat, step: (Store, nat) -> Result<Store>): Result<Store>
    decreases n
  {
    if n == 0 then Ok(m)
    else
      match RowLoop(m, n - 1, step)
      case Err(e) => Err(e)
      case Ok(m') => step(m', n - 1)
  }

  function Stepper(numCols: nat, index: Index): (Store, nat) -> Result<Store>
  {
    (s: Store, row: nat) => RowStep(s, row, numCols, index)
  }

  /** The row loop of `run` over the first `n` rows. */
  function LinkRows(m: Store, numCols: nat, n: nat, index: Index): Result<Store>
  {
    RowLoop(m, n, Stepper(numCols, index))
  }

  /** A row appends exactly the justified links between its entity cells and its literal cells. */
  lemma RowAppendsMember(m: Store, row: nat, numCols: nat, index: Index, x: Added)
    requires RowAppends(m, row, numCols, index).Ok?
    ensures var p := Partition(m, row, numCols);
      && p.Ok?
      && (x in RowAppends(m, row, numCols, index).value <==> Justified(p.value.0, p.value.1, row, index, x))
  {
    var p := Partition(m, row, numCols).value;
    if p.0 != [] && p.1 != [] {
      RowLinksMember(p.0, p.1, row, index, x);
    }
  }

  /** Links go only to literal cells of the row, never to a cell with EntityLinking annotations. */
  lemma RowAppendsTargets(m: Store, row: nat, numCols: nat, index: Index, x: Added)
    requires RowAppends(m, row, numCols, index).Ok? && x in RowAppends(m, row, numCols, index).value
    ensures x.col < numCols && RoleOf(m, row, x.col).Ok? && RoleOf(m, row, x.col).value.LiteralCell?
    ensures Found(m, row, x.col, ElSource) == Ok([])
  {
    RowAppendsMember(m, row, numCols, index, x);
    var rs := Roles(m, row, numCols);
    var p := Split(rs).value;
    SplitSound(rs);
    var l := JustifiedTarget(p.0, p.1, row, index, x);
    assert rs[p.1[l].col] == Ok(LiteralCell(p.1[l].annos));
  }

  /** A justified link goes to one of the literal cells. */
  lemma JustifiedTarget(els: seq<Linked>, lns: seq<Linked>, row: nat, index: Index, x: Added) returns (l: nat)
    requires Justified(els, lns, row, index, x)
    ensures l < |lns| && x.col == lns[l].col
  {
    var e, i, l', j :| 0 <= e < |els| && 0 <= i < |els[e].annos| && 0 <= l' < |lns| && 0 <= j < |lns[l'].annos|
      && LinkFrom(els[e], i, lns[l'], j, row, index, x);
    l := l';
  }

  /** A row without an entity cell, or without a literal cell, gains nothing and raises nothing
      beyond the cell lookups. */
  lemma RowNeedsBoth(m: Store, row: nat, numCols: nat, index: Index)
    requires Partition(m, row, numCols).Ok?
    requires (forall c :: 0 <= c < numCols ==> RoleOf(m, row, c).Ok? && !RoleOf(m, row, c).value.EntityCell?)
          || (forall c :: 0 <= c < numCols ==> RoleOf(m, row, c).Ok? && !RoleOf(m, row, c).value.LiteralCell?)
    ensures RowAppends(m, row, numCols, index) == Ok([])
  {
    var rs := Roles(m, row, numCols);
    SplitSound(rs);
    FirstRoles(rs, Split(rs).value.0, Split(rs).value.1);
  }

  lemma FirstRoles(rs: seq<Result<Role>>, els: seq<Linked>, lns: seq<Linked>)
    requires Partitioned(rs, els, lns)
    ensures els != [] ==> els[0].col < |rs| && rs[els[0].col] == Ok(EntityCell(els[0].annos))
    ensures lns != [] ==> lns[0].col < |rs| && rs[lns[0].col] == Ok(LiteralCell(lns[0].annos))
  {
  }

  /** Appending links `xs` after reading the row's cells: the row's keys exist, and each key gains
      the links to its cell, in order. */
  lemma AppendLinks(m: Store, row: nat, numCols: nat, xs: seq<Added>)
    requires forall i :: 0 <= i < |xs| ==> xs[i].col < numCols
    ensures var m' := AppendAll(TouchAll(m, KeysOf(RowCells(row, numCols))), AddedKeys(xs, row), AddedLists(xs));
      && m'.Keys == m.Keys + set k | k in KeysOf(RowCells(row, numCols))
      && forall k :: Get(m', k) == Get(m, k) + Gathered(AddedKeys(xs, row), AddedLists(xs), k)
  {
    var rowKeys := KeysOf(RowCells(row, numCols));
    var touched := TouchAll(m, rowKeys);
    var ks, adds := AddedKeys(xs, row), AddedLists(xs);
    AppendAllKeys(touched, ks, adds);
    forall i | 0 <= i < |ks| ensures ks[i] in rowKeys {
      assert rowKeys[xs[i].col] == ks[i];
    }
    forall k ensures Get(AppendAll(touched, ks, adds), k) == Get(m, k) + Gathered(ks, adds, k) {
      AppendAllGet(touched, ks, adds, k);
    }
  }

  /** What is gathered under a key is exactly the annotations of the links to that key's cell. */
  lemma GatheredLinks(xs: seq<Added>, row: nat, k: string, a: Annotation)
    ensures a in Gathered(AddedKeys(xs, row), AddedLists(xs), k) <==>
      exists i :: 0 <= i < |xs| && xs[i].anno == a && k == Key(Cell(xs[i].col, row))
  {
    var ks, adds := AddedKeys(xs, row), AddedLists(xs);
    if a in Gathered(ks, adds, k) {
      GatheredFrom(ks, adds, k, a);
    }
    if exists i :: 0 <= i < |xs| && xs[i].anno == a && k == Key(Cell(xs[i].col, row)) {
      var i :| 0 <= i < |xs| && xs[i].anno == a && k == Key(Cell(xs[i].col, row));
      GatheredHas(ks, adds, i, a);
    }
  }

  /** The links a row appends all go to its literal cells. */
  lemma RowAppendsInRow(m: Store, row: nat, numCols: nat, index: Index)
    requires RowAppends(m, row, numCols, index).Ok?
    ensures var xs := RowAppends(m, row, numCols, index).value;
      forall i :: 0 <= i < |xs| ==> xs[i].col < numCols && RoleOf(m, row, xs[i].col).Ok? && RoleOf(m, row, xs[i].col).value.LiteralCell?
  {
    var xs := RowAppends(m, row, numCols, index).value;
    forall i | 0 <= i < |xs|
      ensures xs[i].col < numCols && RoleOf(m, row, xs[i].col).Ok? && RoleOf(m, row, xs[i].col).value.LiteralCell?
    {
      RowAppendsTargets(m, row, numCols, index, xs[i]);
    }
  }

  /** A row's step reads every cell of the row and appends each link under its cell's key. */
  lemma RowStepEffect(m: Store, row: nat, numCols: nat, index: Index)
    requires RowStep(m, row, numCols, index).Ok?
    ensures var m', xs := RowStep(m, row, numCols, index).value, RowAppends(m, row, numCols, index).value;
      && m'.Keys == m.Keys + set k | k in KeysOf(RowCells(row, numCols))
      && forall k :: Get(m', k) == Get(m, k) + Gathered(AddedKeys(xs, row), AddedLists(xs), k)
  {
    RowAppendsInRow(m, row, numCols, index);
    AppendLinks(m, row, numCols, RowAppends(m, row, numCols, index).value);
  }

  /** Appending links after reading the row: a key's new list is its old one followed by the
      links to its cell. */
  lemma LinksGet(m: Store, row: nat, numCols: nat, xs: seq<Added>, k: string)
    ensures Get(AppendAll(TouchAll(m, KeysOf(RowCells(row, numCols))), AddedKeys(xs, row), AddedLists(xs)), k)
         == Get(m, k) + Gathered(AddedKeys(xs, row), AddedLists(xs), k)
  {
    AppendAllGet(TouchAll(m, KeysOf(RowCells(row, numCols))), AddedKeys(xs, row), AddedLists(xs), k);
  }

  /** A key that no link targets keeps its list. */
  lemma LinksUnlisted(m: Store, row: nat, xs: seq<Added>, rowKeys: seq<string>, k: string)
    requires forall i :: 0 <= i < |xs| ==> k != Key(Cell(xs[i].col, row))
    ensures Get(AppendAll(TouchAll(m, rowKeys), AddedKeys(xs, row), AddedLists(xs)), k) == Get(m, k)
  {
    AppendAllUnlisted(TouchAll(m, rowKeys), AddedKeys(xs, row), AddedLists(xs), k);
  }

  /** The links each key gains after the row is read: the old list stays a prefix, and the rest
      holds exactly the annotations of the links to that key's cell. */
  lemma LinksAdd(m: Store, row: nat, numCols: nat, xs: seq<Added>, k: string, a: Annotation)
    ensures var m' := AppendAll(TouchAll(m, KeysOf(RowCells(row, numCols))), AddedKeys(xs, row), AddedLists(xs));
      && |Get(m, k)| <= |Get(m', k)| && Get(m', k)[..|Get(m, k)|] == Get(m, k)
      && (a in Get(m', k)[|Get(m, k)|..] <==> exists i :: 0 <= i < |xs| && xs[i].anno == a && k == Key(Cell(xs[i].col, row)))
  {
    LinksGet(m, row, numCols, xs, k);
    var old_, new_ := Get(m, k), Gathered(AddedKeys(xs, row), AddedLists(xs), k);
    assert (old_ + new_)[|old_|..] == new_ && (old_ + new_)[..|old_|] == old_;
    GatheredLinks(xs, row, k, a);
  }

  /** A successful row step is the appending of the row's links after reading the row. */
  lemma RowStepIs(m: Store, row: nat, numCols: nat, index: Index)
    requires RowStep(m, row, numCols, index).Ok?
    ensures RowAppends(m, row, numCols, index).Ok?
    ensures var xs := RowAppends(m, row, numCols, index).value;
      RowStep(m, row, numCols, index).value == AppendAll(TouchAll(m, KeysOf(RowCells(row, numCols))), AddedKeys(xs, row), AddedLists(xs))
  {
  }

  /** Cells of the row that are not literal cells, entity cells among them, keep their lists. */
  lemma RowStepKeepsOtherCells(m: Store, row: nat, numCols: nat, index: Index, c: int)
    requires RowStep(m, row, numCols, index).Ok?
    requires !(0 <= c < numCols && RoleOf(m, row, c).Ok? && RoleOf(m, row, c).value.LiteralCell?)
    ensures Get(RowStep(m, row, numCols, index).value, Key(Cell(c, row))) == Get(m, Key(Cell(c, row)))
  {
    RowStepIs(m, row, numCols, index);
    var xs := RowAppends(m, row, numCols, index).value;
    RowAppendsInRow(m, row, numCols, index);
    forall i | 0 <= i < |xs| ensures Key(Cell(c, row)) != Key(Cell(xs[i].col, row)) {
      if Key(Cell(c, row)) == Key(Cell(xs[i].col, row)) {
        KeyInjective(Cell(c, row), Cell(xs[i].col, row));
        assert false;
      }
    }
    LinksUnlisted(m, row, xs, KeysOf(RowCells(row, numCols)), Key(Cell(c, row)));
  }

  /** Keys outside the row keep their lists. */
  lemma RowStepFrame(m: Store, row: nat, numCols: nat, index: Index, k: string)
    requires RowStep(m, row, numCols, index).Ok? && k !in KeysOf(RowCells(row, numCols))
    ensures Get(RowStep(m, row, numCols, index).value, k) == Get(m, k)
  {
    RowStepIs(m, row, numCols, index);
    var xs := RowAppends(m, row, numCols, index).value;
    var rowKeys := KeysOf(RowCells(row, numCols));
    RowAppendsInRow(m, row, numCols, index);
    forall i | 0 <= i < |xs| ensures k != Key(Cell(xs[i].col, row)) {
      assert rowKeys[xs[i].col] == Key(Cell(xs[i].col, row));
    }
    LinksUnlisted(m, row, xs, rowKeys, k);
  }

  /** A row's step keeps each key's old list as a prefix, and what follows is exactly the
      annotations of the row's links to that key's cell, which `RowAppendsMember` characterises. */
  lemma RowStepAdds(m: Store, row: nat, numCols: nat, index: Index, k: string, a: Annotation)
    requires RowStep(m, row, numCols, index).Ok?
    ensures var xs, m' := RowAppends(m, row, numCols, index), RowStep(m, row, numCols, index).value;
      && xs.Ok?
      && |Get(m, k)| <= |Get(m', k)| && Get(m', k)[..|Get(m, k)|] == Get(m, k)
      && (a in Get(m', k)[|Get(m, k)|..] <==>
            exists i :: 0 <= i < |xs.value| && xs.value[i].anno == a && k == Key(Cell(xs.value[i].col, row)))
  {
    RowStepIs(m, row, numCols, index);
    LinksAdd(m, row, numCols, RowAppends(m, row, numCols, index).value, k, a);
  }

  /** Once a row raises, the row loop ends with that exception. */
  lemma {:induction false} RowLoopStops(m: Store, n: nat, step: (Store, nat) -> Result<Store>, j: nat)
    requires j <= n && RowLoop(m, j, step).Err?
    ensures RowLoop(m, n, step) == RowLoop(m, j, step)
    decreases n
  {
    if j < n {
      RowLoopStops(m, n - 1, step, j);
    }
  }

  /** The two stores hold the same lists for the cells of `row`. */
  ghost predicate SameRow(m1: Store, m2: Store, row: nat, numCols: nat)
  {
    forall c :: 0 <= c < numCols ==> Get(m1, Key(Cell(c, row))) == Get(m2, Key(Cell(c, row)))
  }

  /** A step that changes at most the keys of its own row. */
  ghost predicate StaysInRow(step: (Store, nat) -> Result<Store>, n: nat, numCols: nat)
  {
    forall s, q, k {:trigger Get(step(s, q).value, k)} ::
      0 <= q < n && step(s, q).Ok? && k !in KeysOf(RowCells(q, numCols)) ==> Get(step(s, q).value, k) == Get(s, k)
  }

  /** A step whose effect on its row depends only on that row. */
  ghost predicate ReadsOwnRow(step: (Store, nat) -> Result<Store>, n: nat, numCols: nat)
  {
    forall s1, s2, q {:trigger SameRow(s1, s2, q, numCols), step(s1, q)} ::
      0 <= q < n && SameRow(s1, s2, q, numCols) && step(s1, q).Ok? ==>
      step(s2, q).Ok? && SameRow(step(s1, q).value, step(s2, q).value, q, numCols)
  }

  /** A cell key belongs to no other row. */
  lemma NotInOtherRow(c: int, r: int, q: nat, numCols: nat)
    requires r != q
    ensures Key(Cell(c, r)) !in KeysOf(RowCells(q, numCols))
  {
    var rowKeys := KeysOf(RowCells(q, numCols));
    forall i | 0 <= i < |rowKeys| ensures rowKeys[i] != Key(Cell(c, r)) {
      if rowKeys[i] == Key(Cell(c, r)) {
        KeyInjective(Cell(i, q), Cell(c, r));
        assert false;
      }
    }
  }

  /** Rows the loop has not reached yet are untouched. */
  lemma {:induction false} RowLoopAhead(m: Store, n: nat, step: (Store, nat) -> Result<Store>, numCols: nat, r: nat)
    requires RowLoop(m, n, step).Ok? && StaysInRow(step, n, numCols) && n <= r
    ensures SameRow(RowLoop(m, n, step).value, m, r, numCols)
    decreases n
  {
    if n > 0 {
      RowLoopAhead(m, n - 1, step, numCols, r);
      forall c | 0 <= c < numCols ensures Key(Cell(c, r)) !in KeysOf(RowCells(n - 1, numCols)) {
        NotInOtherRow(c, r, n - 1, numCols);
      }
    }
  }

  /** With such steps, each row ends as its step alone makes it from the original store. */
  lemma {:induction false} RowLoopByRow(m: Store, n: nat, step: (Store, nat) -> Result<Store>, numCols: nat, r: nat)
    requires RowLoop(m, n, step).Ok? && r < n
    requires StaysInRow(step, n, numCols) && ReadsOwnRow(step, n, numCols)
    ensures step(m, r).Ok? && SameRow(RowLoop(m, n, step).value, step(m, r).value, r, numCols)
    decreases n
  {
    var m1 := RowLoop(m, n - 1, step).value;
    if r < n - 1 {
      RowLoopByRow(m, n - 1, step, numCols, r);
      LaterRowKeeps(m1, n, step, numCols, r);
    } else {
      RowLoopAhead(m, n - 1, step, numCols, r);
      assert SameRow(m1, m, r, numCols);
    }
  }

  /** The step of the last row leaves an earlier row as it was. */
  lemma LaterRowKeeps(m1: Store, n: nat, step: (Store, nat) -> Result<Store>, numCols: nat, r: nat)
    requires 0 < n && r < n - 1 && step(m1, n - 1).Ok? && StaysInRow(step, n, numCols)
    ensures SameRow(step(m1, n - 1).value, m1, r, numCols)
  {
    forall c | 0 <= c < numCols ensures Get(step(m1, n - 1).value, Key(Cell(c, r))) == Get(m1, Key(Cell(c, r))) {
      NotInOtherRow(c, r, n - 1, numCols);
    }
  }

  /** A row's step depends only on the row's own cells. */
  lemma RowStepLocal(m1: Store, m2: Store, row: nat, numCols: nat, index: Index)
    requires SameRow(m1, m2, row, numCols) && RowStep(m1, row, numCols, index).Ok?
    ensures RowStep(m2, row, numCols, index).Ok?
    ensures SameRow(RowStep(m1, row, numCols, index).value, RowStep(m2, row, numCols, index).value, row, numCols)
  {
    RowAppendsLocal(m1, m2, row, numCols, index);
    RowStepIs(m1, row, numCols, index);
    RowStepIs(m2, row, numCols, index);
    var xs := RowAppends(m1, row, numCols, index).value;
    forall c | 0 <= c < numCols
      ensures Get(RowStep(m1, row, numCols, index).value, Key(Cell(c, row))) == Get(RowStep(m2, row, numCols, index).value, Key(Cell(c, row)))
    {
      LinksGet(m1, row, numCols, xs, Key(Cell(c, row)));
      LinksGet(m2, row, numCols, xs, Key(Cell(c, row)));
    }
  }

  /** What a row appends depends only on the lists of its own cells. */
  lemma RowAppendsLocal(m1: Store, m2: Store, row: nat, numCols: nat, index: Index)
    requires SameRow(m1, m2, row, numCols)
    ensures RowAppends(m1, row, numCols, index) == RowAppends(m2, row, numCols, index)
  {
    forall c | 0 <= c < numCols ensures RoleOf(m1, row, c) == RoleOf(m2, row, c) {
      assert Found(m1, row, c, ElSource) == Found(m2, row, c, ElSource);
      assert Found(m1, row, c, LnSource) == Found(m2, row, c, LnSource);
    }
    assert Roles(m1, row, numCols) == Roles(m2, row, numCols);
  }

  /** Rows are linked independently: after the row loop, the cells of each row hold what that
      row's step alone makes of the original store, and every other key keeps its list. */
  lemma LinkRowsByRow(m: Store, numCols: nat, n: nat, index: Index, r: nat)
    requires LinkRows(m, numCols, n, index).Ok? && r < n
    ensures RowStep(m, r, numCols, index).Ok?
    ensures SameRow(LinkRows(m, numCols, n, index).value, RowStep(m, r, numCols, index).value, r, numCols)
  {
    var step := Stepper(numCols, index);
    forall s, q, k | 0 <= q < n && step(s, q).Ok? && k !in KeysOf(RowCells(q, numCols))
      ensures Get(step(s, q).value, k) == Get(s, k)
    {
      RowStepFrame(s, q, numCols, index, k);
    }
    forall s1, s2, q | 0 <= q < n && SameRow(s1, s2, q, numCols) && step(s1, q).Ok?
      ensures step(s2, q).Ok? && SameRow(step(s1, q).value, step(s2, q).value, q, numCols)
    {
      RowStepLocal(s1, s2, q, numCols, index);
    }
    RowLoopByRow(m, n, step, numCols, r);
  }

  /** A key of no cell of the first `n` rows keeps its list. */
  lemma {:induction false} RowLoopUntouched(m: Store, n: nat, step: (Store, nat) -> Result<Store>, k: string)
    requires RowLoop(m, n, step).Ok?
    requires forall s, r :: 0 <= r < n && step(s, r).Ok? ==> Get(step(s, r).value, k) == Get(s, k)
    ensures Get(RowLoop(m, n, step).value, k) == Get(m, k)
    decreases n
  {
    if n > 0 {
      RowLoopUntouched(m, n - 1, step, k);
    }
  }

  /** Keys other than the cells of the visited rows keep their lists. */
  lemma LinkRowsUntouched(m: Store, numCols: nat, n: nat, index: Index, k: string)
    requires LinkRows(m, numCols, n, index).Ok?
    requires forall r, c :: 0 <= r < n && 0 <= c < numCols ==> k != Key(Cell(c, r))
    ensures Get(LinkRows(m, numCols, n, index).value, k) == Get(m, k)
  {
    var step := Stepper(numCols, index);
    forall s, r | 0 <= r < n && step(s, r).Ok? ensures Get(step(s, r).value, k) == Get(s, k) {
      var rowKeys := KeysOf(RowCells(r, numCols));
      forall i | 0 <= i < |rowKeys| ensures rowKeys[i] != k {
        assert rowKeys[i] == Key(Cell(i, r));
      }
      RowStepFrame(s, r, numCols, index, k);
    }
    RowLoopUntouched(m, n, step, k);
  }

  // ---------------------------------------------------------------- columns shorter than the first

  /** The first column, from `c` on, without an entry for `row`: reading its cell of `row`
      raises IndexError. It is `|relation|` when every such column has one. */
  function FirstMissingFrom(relation: seq<seq<string>>, row: nat, c: nat): (r: nat)
    requires c <= |relation|
    ensures c <= r <= |relation|
    ensures forall j :: c <= j < r ==> row < |relation[j]|
    ensures r < |relation| ==> |relation[r]| <= row
    decreases |relation| - c
  {
    if c == |relation| then c
    else if |relation[c]| <= row then c
    else FirstMissingFrom(relation, row, c + 1)
  }

  function FirstMissing(relation: seq<seq<string>>, row: nat): (r: nat)
    ensures r <= |relation|
    ensures forall j :: 0 <= j < r ==> row < |relation[j]|
    ensures r < |relation| ==> |relation[r]| <= row
  {
    FirstMissingFrom(relation, row, 0)
  }

  /** The cell loop of `row` over the grid `relation`: the cells are read in column order, and the
      first cell without an entry raises IndexError once the cells before it were sorted. */
  function PartitionIn(m: Store, relation: seq<seq<string>>, row: nat): (r: Result<(seq<Linked>, seq<Linked>)>)
    ensures FirstMissing(relation, row) == |relation| ==> r == Partition(m, row, |relation|)
    ensures FirstMissing(relation, row) < |relation| ==> r.Err?
  {
    var c := FirstMissing(relation, row);
    match Partition(m, row, c)
    case Err(e) => Err(e)
    case Ok(p) => if c < |relation| then Err(IndexError(row)) else Ok(p)
  }

  /** One iteration of the row loop over the grid `relation`: a row with a missing cell raises
      from the cell loop; any other row is `RowStep`. */
  function RowStepIn(m: Store, relation: seq<seq<string>>, row: nat, index: Index): (r: Result<Store>)
    ensures FirstMissing(relation, row) == |relation| ==> r == RowStep(m, row, |relation|, index)
    ensures FirstMissing(relation, row) < |relation| ==> r.Err? && r == Err(PartitionIn(m, relation, row).error)
  {
    if FirstMissing(relation, row) < |relation| then Err(PartitionIn(m, relation, row).error)
    else RowStep(m, row, |relation|, index)
  }

  function SteppingIn(relation: seq<seq<string>>, index: Index): (Store, nat) -> Result<Store>
  {
    (s: Store, row: nat) => RowStepIn(s, relation, row, index)
  }

  /** The row loop of `run` over the first `n` rows of the grid `relation`. */
  function LinkIn(m: Store, relation: seq<seq<string>>, n: nat, index: Index): Result<Store>
  {
    RowLoop(m, n, SteppingIn(relation, index))
  }

  /** Row loops whose steps agree on the rows they visit agree. */
  lemma {:induction false} RowLoopSame(m: Store, n: nat, step1: (Store, nat) -> Result<Store>, step2: (Store, nat) -> Result<Store>)
    requires forall s, r :: 0 <= r < n ==> step1(s, r) == step2(s, r)
    ensures RowLoop(m, n, step1) == RowLoop(m, n, step2)
    decreases n
  {
    if n > 0 {
      RowLoopSame(m, n - 1, step1, step2);
    }
  }

  /** On a grid whose columns all reach row `n`, the loop is the row loop `LinkRows`. */
  lemma LinkInFull(m: Store, relation: seq<seq<string>>, n: nat, index: Index)
    requires forall c :: 0 <= c < |relation| ==> n <= |relation[c]|
    ensures LinkIn(m, relation, n, index) == LinkRows(m, |relation|, n, index)
  {
    forall s, r | 0 <= r < n
      ensures SteppingIn(relation, index)(s, r) == Stepper(|relation|, index)(s, r)
    {
      assert FirstMissing(relation, r) == |relation|;
    }
    RowLoopSame(m, n, SteppingIn(relation, index), Stepper(|relation|, index));
  }

  /** A loop that raises nothing met no missing cell: every column reaches row `n`. */
  lemma {:induction false} LinkInNeedsFullColumns(m: Store, relation: seq<seq<string>>, n: nat, index: Index)
    requires LinkIn(m, relation, n, index).Ok?
    ensures forall c :: 0 <= c < |relation| ==> n <= |relation[c]|
    decreases n
  {
    if n > 0 {
      LinkInNeedsFullColumns(m, relation, n - 1, index);
      var mr := LinkIn(m, relation, n - 1, index).value;
      assert RowStepIn(mr, relation, n - 1, index).Ok?;
    }
  }

  /** A row whose cells before the first missing one are all read without exception raises
      IndexError at that row. */
  lemma MissingCellRaises(m: Store, relation: seq<seq<string>>, row: nat, index: Index)
    requires FirstMissing(relation, row) < |relation|
    requires forall c :: 0 <= c < FirstMissing(relation, row) ==> RoleOf(m, row, c).Ok?
    ensures RowStepIn(m, relation, row, index) == Err(IndexError(row))
  {
    SplitFails(Roles(m, row, FirstMissing(relation, row)));
  }

  /** One example: a second column one entry short raises IndexError at its missing row, after
      the first row was read. */
  lemma ShortColumnExample(index: Index)
    ensures LinkIn(map[], [["a", "b"], ["x"]], 2, index) == Err(IndexError(1))
  {
    var relation: seq<seq<string>> := [["a", "b"], ["x"]];
    var m0: Store := map[];
    assert FirstMissing(relation, 0) == 2;
    assert Roles(m0, 0, 2) == [Ok(Neither), Ok(Neither)];
    var one: seq<Result<Role>> := [Ok(Neither)];
    assert one[..0] == [];
    assert Split(one) == Ok(([], []));
    assert Roles(m0, 0, 2)[..1] == one;
    assert Partition(m0, 0, 2) == Ok(([], []));
    var m1 := AppendAll(TouchAll(m0, KeysOf(RowCells(0, 2))), AddedKeys([], 0), AddedLists([]));
    assert RowStep(m0, 0, 2, index) == Ok(m1);
    assert LinkIn(m0, relation, 1, index) == Ok(m1);
    assert Get(m1, Key(Cell(0, 1))) == [];
    assert FirstMissing(relation, 1) == 1;
    MissingCellRaises(m1, relation, 1, index);
    LinkInNext(m0, relation, 1, index, m1);
  }

  // ---------------------------------------------------------------- run

  /** The cell loop after `c + 1` cells is the loop after `c` cells extended by cell `c`. */
  lemma SplitNext(rs: seq<Result<Role>>, c: nat, p: (seq<Linked>, seq<Linked>), role: Role)
    requires c < |rs| && Split(rs[..c]) == Ok(p) && rs[c] == Ok(role)
    ensures Split(rs[..c + 1]) == Ok(Extend(p, c, role))
  {
    assert rs[..c + 1][..c] == rs[..c];
  }

  /** A lookup that raises on cell `c` ends the cell loop with its exception. */
  lemma SplitNextFails(rs: seq<Result<Role>>, c: nat, e: Error)
    requires c < |rs| && Split(rs[..c]).Ok? && rs[c] == Err(e)
    ensures Split(rs[..c + 1]) == Err(e)
  {
    assert rs[..c + 1][..c] == rs[..c];
  }

  /** Once the cells read so far raise, the cell loop raises the same exception. */
  lemma {:induction false} SplitStops(rs: seq<Result<Role>>, c: nat)
    requires c <= |rs| && Split(rs[..c]).Err?
    ensures Split(rs) == Split(rs[..c])
    decreases |rs|
  {
    if c < |rs| {
      var n := |rs| - 1;
      assert rs[..n][..c] == rs[..c];
      SplitStops(rs[..n], c);
    } else {
      assert rs[..c] == rs;
    }
  }

  /** One more row of the row loop. */
  lemma LinkInNext(m: Store, relation: seq<seq<string>>, row: nat, index: Index, mr: Store)
    requires LinkIn(m, relation, row, index) == Ok(mr)
    ensures LinkIn(m, relation, row + 1, index) == RowStepIn(mr, relation, row, index)
  {
  }

  /** A row that raises ends the row loop with its exception. */
  lemma LinkInFails(m: Store, relation: seq<seq<string>>, numRows: nat, index: Index, row: nat, mr: Store, e: Error)
    requires row < numRows && LinkIn(m, relation, row, index) == Ok(mr) && RowStepIn(mr, relation, row, index) == Err(e)
    ensures LinkIn(m, relation, numRows, index) == Err(e)
  {
    LinkInNext(m, relation, row, index, mr);
    RowLoopStops(m, numRows, SteppingIn(relation, index), row + 1);
  }

  /** A row whose cell loop raises raises the same exception. */
  lemma PartitionFails(m: Store, row: nat, numCols: nat, index: Index, e: Error)
    requires Partition(m, row, numCols) == Err(e)
    ensures RowStep(m, row, numCols, index) == Err(e)
  {
  }

  /** A row whose link computation raises raises the same exception. */
  lemma LinksFail(m: Store, row: nat, numCols: nat, index: Index, els: seq<Linked>, lns: seq<Linked>, e: Error)
    requires Partition(m, row, numCols) == Ok((els, lns)) && els != [] && lns != []
    requires RowLinks(els, lns, row, index) == Err(e)
    ensures RowStep(m, row, numCols, index) == Err(e)
  {
  }

  /** A row that does not raise touches its cells and appends the links `xs` it computed. */
  lemma RowSucceeds(m: Store, row: nat, numCols: nat, index: Index, els: seq<Linked>, lns: seq<Linked>, xs: seq<Added>)
    requires Partition(m, row, numCols) == Ok((els, lns))
    requires if els != [] && lns != [] then RowLinks(els, lns, row, index) == Ok(xs) else xs == []
    ensures RowStep(m, row, numCols, index) == Ok(AppendAll(TouchAll(m, KeysOf(RowCells(row, numCols))), AddedKeys(xs, row), AddedLists(xs)))
  {
  }

  /** The role the cell loop computes from the list it read for cell `c`. */
  lemma ReadRole(m: Store, row: nat, n: nat, c: nat, annos: seq<Annotation>)
    requires c < n && annos == Get(m, Key(Cell(c, row)))
    ensures Roles(m, row, n)[c] == RoleIn(annos)
  {
  }

  /** The body of the cell loop on one cell's list: `find_annotations` for EntityLinking
      annotations, then, when there are none, for LiteralNormalization ones. */
  method CellRoleOf(annos: seq<Annotation>) returns (role: Result<Role>)
    ensures role == RoleIn(annos)
  {
    var el := FindAnnotations(annos, Some(ElSource), None, None);
    if el.Err? {
      return Err(el.error);
    }
    if el.value != [] {
      return Ok(EntityCell(el.value));
    }
    var ln := FindAnnotations(annos, Some(LnSource), None, None);
    if ln.Err? {
      return Err(ln.error);
    }
    role := Ok(if ln.value != [] then LiteralCell(ln.value) else Neither);
  }

  /** Every prefix of the roles of a row is the roles of that many cells. */
  lemma RolesPrefix(m: Store, row: nat, c: nat, n: nat)
    requires c <= n
    ensures Roles(m, row, n)[..c] == Roles(m, row, c)
  {
  }

  /** The cell loop reaching a cell without an entry, all earlier cells sorted, raises IndexError. */
  lemma PartitionMissing(m: Store, relation: seq<seq<string>>, row: nat, c: nat)
    requires c < |relation| && |relation[c]| <= row && c <= FirstMissing(relation, row)
    requires Split(Roles(m, row, |relation|)[..c]).Ok?
    ensures PartitionIn(m, relation, row) == Err(IndexError(row))
  {
    assert FirstMissing(relation, row) == c;
    RolesPrefix(m, row, c, |relation|);
  }

  /** The cell loop raising on a lookup before any missing cell raises that exception. */
  lemma PartitionStops(m: Store, relation: seq<seq<string>>, row: nat, c: nat, e: Error)
    requires c <= FirstMissing(relation, row)
    requires Split(Roles(m, row, |relation|)[..c]) == Err(e)
    ensures PartitionIn(m, relation, row) == Err(e)
  {
    var full := FirstMissing(relation, row);
    RolesPrefix(m, row, c, |relation|);
    RolesPrefix(m, row, c, full);
    SplitStops(Roles(m, row, full), c);
  }


  /** The cell loop of one row: every cell is read in column order (creating its key) and sorted
      into `el_cells` or `ln_cells`; a failing lookup, or a cell the grid has no entry for, ends it
      with the keys read so far created. */
  method PartitionRow(t: Table, row: nat) returns (r: Result<(seq<Linked>, seq<Linked>)>)
    requires t.Shaped()
    modifies t
    ensures r == PartitionIn(old(t.annotations), t.relation, row)
    ensures r.Ok? ==> t.annotations == TouchAll(old(t.annotations), KeysOf(RowCells(row, t.numCols)))
  {
    ghost var m := t.annotations;
    ghost var rs := Roles(m, row, t.numCols);
    ghost var ks := KeysOf(RowCells(row, t.numCols));
    var els: seq<Linked> := [];
    var lns: seq<Linked> := [];
    var failure: Option<Error> := None;
    var c := 0;
    while c < t.numCols && failure.None?
      invariant 0 <= c <= t.numCols
      invariant c <= FirstMissing(t.relation, row)
      invariant failure.None? ==> t.annotations == TouchAll(m, ks[..c]) && Split(rs[..c]) == Ok((els, lns))
      invariant failure.Some? ==> Split(rs[..c]) == Err(failure.value)
    {
      TouchNext(m, ks, c);
      var annos := t.Read(Cell(c, row));
      if |t.relation[c]| <= row {
        PartitionMissing(m, t.relation, row, c);
        return Err(IndexError(row));
      }
      var role := CellRoleOf(annos);
      ReadRole(m, row, t.numCols, c, annos);
      if role.Err? {
        SplitNextFails(rs, c, role.error);
        failure := Some(role.error);
      } else {
        SplitNext(rs, c, (els, lns), role.value);
        var next := Extend((els, lns), c, role.value);
        els, lns := next.0, next.1;
      }
      c := c + 1;
    }
    if failure.Some? {
      PartitionStops(m, t.relation, row, c, failure.value);
      r := Err(failure.value);
    } else {
      assert ks[..c] == ks && rs[..c] == rs;
      r := Ok((els, lns));
    }
  }

  /** The append loop: `ln_cell.annotations.append(...)` for each link, in order. */
  method AppendLinksTo(t: Table, row: nat, xs: seq<Added>)
    modifies t
    ensures t.annotations == AppendAll(old(t.annotations), AddedKeys(xs, row), AddedLists(xs))
  {
    ghost var m := t.annotations;
    ghost var targets, adds := AddedKeys(xs, row), AddedLists(xs);
    var i := 0;
    while i < |xs|
      invariant 0 <= i <= |xs|
      invariant t.annotations == AppendAll(m, targets[..i], adds[..i])
    {
      t.Append(Cell(xs[i].col, row), [xs[i].anno]);
      TakeOneMore(targets, i);
      TakeOneMore(adds, i);
      AppendAllSnoc(m, targets[..i], adds[..i], targets[i], adds[i]);
      i := i + 1;
    }
    assert targets[..i] == targets && adds[..i] == adds;
  }

  /** One row of `run`: the cell loop, then, when the row has both entity and literal cells,
      the links it computes appended in order. */
  method LinkRow(t: Table, row: nat, index: Index) returns (failure: Option<Error>)
    requires t.Shaped()
    modifies t
    ensures RowStepIn(old(t.annotations), t.relation, row, index) ==
      if failure.None? then Ok(t.annotations) else Err(failure.value)
  {
    ghost var mr := t.annotations;
    var cells := PartitionRow(t, row);
    if cells.Err? {
      if FirstMissing(t.relation, row) == |t.relation| {
        PartitionFails(mr, row, t.numCols, index, cells.error);
      }
      return Some(cells.error);
    }
    var (els, lns) := cells.value;
    if els != [] && lns != [] {
      var links := RowLinks(els, lns, row, index);
      if links.Err? {
        LinksFail(mr, row, t.numCols, index, els, lns, links.error);
        return Some(links.error);
      }
      RowSucceeds(mr, row, t.numCols, index, els, lns, links.value);
      AppendLinksTo(t, row, links.value);
    } else {
      RowSucceeds(mr, row, t.numCols, index, els, lns, []);
      AppendLinksTo(t, row, []);
    }
    failure := None;
  }

  /** `LiteralLinking.run`: on success the annotation map is what the row loop makes of it and the
      result is `True`; otherwise the run raises the row loop's exception, which is IndexError at
      the first row with a missing cell when no earlier lookup raised. On a table whose columns
      are no shorter than the first, that loop is `LinkRows` (`LinkInFull`). */
  method Run(t: Table, index: Index) returns (r: Result<bool>)
    requires t.Shaped()
    modifies t
    ensures r.Ok? ==> r.value
    ensures LinkIn(old(t.annotations), t.relation, t.numRows, index) == if r.Ok? then Ok(t.annotations) else Err(r.error)
  {
    ghost var m0 := t.annotations;
    var row := 0;
    while row < t.numRows
      invariant 0 <= row <= t.numRows
      invariant LinkIn(m0, t.relation, row, index) == Ok(t.annotations)
    {
      ghost var mr := t.annotations;
      LinkInNext(m0, t.relation, row, index, mr);
      var failure := LinkRow(t, row, index);
      if failure.Some? {
        LinkInFails(m0, t.relation, t.numRows, index, row, mr, failure.value);
        return Err(failure.value);
      }
      row := row + 1;
    }
    r := Ok(true);
  }
}
