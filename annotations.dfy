/** Annotation records: an open attribute set with the envelope keys `source`, `task` and `type`
    (each possibly absent) and a closed set of task-specific bodies (wtu/table.py, find_annotations). */
module Annotations {
  import opened Common

  datatype Body =
    | Envelope                                    // no task-specific keys
    | Quantity(value: real, valueNormalized: real, unitName: string, dataType: string, quantityName: string)
    | DateParts(year: Option<int>, month: Option<int>, dayOfMonth: Option<int>, monthName: Option<string>)
    | Number(number: real)
    | Resource(uri: string, frequency: real)
    | PropertyLink(uri: string, elRef: string, lnRef: string)
    | ClassLink(classUri: string)
    | PropertyUri(propertyUri: string)

  /** `None` in an envelope field means the key is absent from the record. */
  datatype Annotation = Annotation(source: Option<string>, task: Option<string>, kind: Option<string>, body: Body)

  /** The filter condition of `find_annotations` for one record, evaluated left to right with
      short-circuiting: a filter that is given reads its key, and an absent key raises KeyError. */
  function Matches(a: Annotation, source: Option<string>, task: Option<string>, kind: Option<string>): Result<bool>
  {
    if source.Some? && a.source.None? then Err(KeyError("source"))
    else if source.Some? && a.source != source then Ok(false)
    else if task.Some? && a.task.None? then Err(KeyError("task"))
    else if task.Some? && a.task != task then Ok(false)
    else if kind.Some? && a.kind.None? then Err(KeyError("type"))
    else Ok(kind.None? || a.kind == kind)
  }

  /** A record carries every given filter value. */
  predicate Satisfies(a: Annotation, source: Option<string>, task: Option<string>, kind: Option<string>)
  {
    (source.None? || a.source == source) && (task.None? || a.task == task) && (kind.None? || a.kind == kind)
  }

  /** Order-preserving filter: the reference definition `find_annotations` is measured against. */
  function Filter(annos: seq<Annotation>, source: Option<string>, task: Option<string>, kind: Option<string>): seq<Annotation>
  {
    if annos == [] then []
    else (if Satisfies(annos[0], source, task, kind) then [annos[0]] else [])
         + Filter(annos[1..], source, task, kind)
  }

  /** `QueryResult.find_annotations(anno_source, anno_task, anno_type)`. */
  function FindAnnotations(annos: seq<Annotation>, source: Option<string>, task: Option<string>, kind: Option<string>): (r: Result<seq<Annotation>>)
    ensures r.Err? <==> exists i :: 0 <= i < |annos| && Matches(annos[i], source, task, kind).Err?
    ensures r.Ok? ==> r.value == Filter(annos, source, task, kind)
  {
    if annos == [] then Ok([])
    else
      match Matches(annos[0], source, task, kind)
      case Err(e) => Err(e)
      case Ok(keep) =>
        assert keep == Satisfies(annos[0], source, task, kind);
        match FindAnnotations(annos[1..], source, task, kind)
        case Err(e) =>
          assert forall i :: 0 < i < |annos| ==> annos[i] == annos[1..][i - 1];
          Err(e)
        case Ok(rest) =>
          assert forall i :: 0 < i < |annos| ==> annos[i] == annos[1..][i - 1];
          Ok((if keep then [annos[0]] else []) + rest)
  }

  /** A failing lookup raises the error of the first record that makes a filter raise. */
  lemma {:induction false} FindAnnotationsFirstError(annos: seq<Annotation>, source: Option<string>, task: Option<string>, kind: Option<string>)
    requires FindAnnotations(annos, source, task, kind).Err?
    ensures exists i ::
      && 0 <= i < |annos|
      && Matches(annos[i], source, task, kind) == Err(FindAnnotations(annos, source, task, kind).error)
      && forall j :: 0 <= j < i ==> Matches(annos[j], source, task, kind).Ok?
  {
    if Matches(annos[0], source, task, kind).Ok? {
      var rest := annos[1..];
      FindAnnotationsFirstError(rest, source, task, kind);
      var i :| 0 <= i < |rest| && Matches(rest[i], source, task, kind) == Err(FindAnnotations(rest, source, task, kind).error)
        && forall j :: 0 <= j < i ==> Matches(rest[j], source, task, kind).Ok?;
      assert annos[i + 1] == rest[i];
      assert forall j :: 1 <= j <= i ==> annos[j] == rest[j - 1];
    }
  }

  /** The filter keeps exactly the satisfying records, each as often and in the order they occur. */
  lemma {:induction false} FilterIsSubsequence(annos: seq<Annotation>, source: Option<string>, task: Option<string>, kind: Option<string>)
    ensures var r := Filter(annos, source, task, kind);
      && |r| <= |annos|
      && (forall x :: x in r <==> x in annos && Satisfies(x, source, task, kind))
      && (forall x :: multiset(r)[x] == if Satisfies(x, source, task, kind) then multiset(annos)[x] else 0)
  {
    if annos != [] {
      FilterIsSubsequence(annos[1..], source, task, kind);
      assert annos == [annos[0]] + annos[1..];
    }
  }

  /** With no filter at all `find_annotations` returns the whole list. */
  lemma {:induction false} FindWithoutFilters(annos: seq<Annotation>)
    ensures FindAnnotations(annos, None, None, None) == Ok(annos)
  {
    if annos != [] {
      FindWithoutFilters(annos[1..]);
      assert annos == [annos[0]] + annos[1..];
    }
  }

  /** Filtering by source never raises on records that all carry a source. */
  lemma {:induction false} FindBySourceTotal(annos: seq<Annotation>, source: string)
    requires forall i :: 0 <= i < |annos| ==> annos[i].source.Some?
    ensures FindAnnotations(annos, Some(source), None, None).Ok?
  {
  }

  /** Filtering distributes over concatenation, so appending records only appends to the filtered view. */
  lemma {:induction false} FilterAppend(xs: seq<Annotation>, ys: seq<Annotation>, source: Option<string>, task: Option<string>, kind: Option<string>)
    ensures Filter(xs + ys, source, task, kind) == Filter(xs, source, task, kind) + Filter(ys, source, task, kind)
  {
    if xs != [] {
      var head := if Satisfies(xs[0], source, task, kind) then [xs[0]] else [];
      assert (xs + ys)[0] == xs[0] && (xs + ys)[1..] == xs[1..] + ys;
      FilterAppend(xs[1..], ys, source, task, kind);
      calc {
        Filter(xs + ys, source, task, kind);
        head + Filter(xs[1..] + ys, source, task, kind);
        head + (Filter(xs[1..], source, task, kind) + Filter(ys, source, task, kind));
        (head + Filter(xs[1..], source, task, kind)) + Filter(ys, source, task, kind);
        Filter(xs, source, task, kind) + Filter(ys, source, task, kind);
      }
    } else {
      assert xs + ys == ys;
    }
  }
}
