/** `LiteralNormalization` (wtu/task/literalnormalization.py): every cell is annotated with its
    unit hypotheses, or failing those its date hypotheses, or failing those its number. */
module LiteralNormalization {
  import opened Common
  import opened Text
  import opened Annotations
  import opened Tables
  import Dates
  import Units
  import Numbers

  const Source := "LiteralNormalization"

  function UnitAnnotation(h: Units.UnitHypo): Annotation
  {
    Annotation(Some(Source), None, Some("value and unit"),
      Quantity(h.value, h.valueNormalized, Units.Name(h.unit), Units.DataType(h.unit), Units.QuantityName(h.unit)))
  }

  function DateAnnotation(h: Dates.DateHypo): Annotation
  {
    Annotation(Some(Source), None, Some("date"), DateParts(h.year, h.month, h.dayOfMonth, h.monthName))
  }

  function NumberAnnotation(x: real): Annotation
  {
    Annotation(Some(Source), None, Some("numeric"), Number(x))
  }

  /** The annotations one cell's content receives: the first parser that finds anything wins. */
  function Normalize(content: string): (r: seq<Annotation>)
    ensures forall a :: a in r ==> a.source == Some(Source) && a.task.None?
  {
    FirstFound(Units.Parse(content), Dates.Parse(content), Numbers.Parse(content))
  }

  /** The unit hypotheses if there are any, else the date hypotheses if there are any, else the
      number if there is one. */
  function FirstFound(units: seq<Units.UnitHypo>, dates: seq<Dates.DateHypo>, number: Option<real>): (r: seq<Annotation>)
    ensures forall a :: a in r ==> a.source == Some(Source) && a.task.None?
  {
    if |units| > 0 then seq(|units|, i requires 0 <= i < |units| => UnitAnnotation(units[i]))
    else if |dates| > 0 then seq(|dates|, i requires 0 <= i < |dates| => DateAnnotation(dates[i]))
    else
      match number
      case Some(x) => [NumberAnnotation(x)]
      case None => []
  }

  lemma FirstFoundOneKind(units: seq<Units.UnitHypo>, dates: seq<Dates.DateHypo>, number: Option<real>)
    requires |units| <= 1 && |dates| <= 9
    ensures var r := FirstFound(units, dates, number);
      |r| <= 9 && forall a, b :: a in r && b in r ==> a.kind == b.kind
  {
  }

  /** All annotations of a cell are of one kind, and there are at most nine (one per date notation). */
  lemma {:induction false} NormalizeOneKind(content: string)
    ensures |Normalize(content)| <= 9
    ensures forall a, b :: a in Normalize(content) && b in Normalize(content) ==> a.kind == b.kind
  {
    Units.AtMostOneHypothesis(content);
    FirstFoundOneKind(Units.Parse(content), Dates.Parse(content), Numbers.Parse(content));
  }

  /** A value with a unit yields exactly one "value and unit" annotation, carrying the value
      written and its conversion into the base unit; the date and number readings of the same
      text are not consulted. */
  lemma {:induction false} UnitTakesPrecedence(content: string)
    requires |Units.Parse(content)| > 0
    ensures |Normalize(content)| == 1
    ensures var a := Normalize(content)[0]; var h := Units.Parse(content)[0];
      && a.kind == Some("value and unit") && a.body.Quantity?
      && a.body.value == Units.ValueOf(BeforeFinalNewline(content))
      && a.body.valueNormalized == Units.Scale(a.body.value, h.unit)
      && a.body.unitName == Units.Name(h.unit)
  {
    Units.AtMostOneHypothesis(content);
    Units.ParseSound(content, 0);
    assert Normalize(content) == [UnitAnnotation(Units.Parse(content)[0])];
  }

  /** Without a unit reading, every date hypothesis becomes one "date" annotation, in notation
      order, carrying that hypothesis's year, month, day and month name. */
  lemma {:induction false} DatesWhenNoUnit(content: string)
    requires Units.Parse(content) == [] && |Dates.Parse(content)| > 0
    ensures |Normalize(content)| == |Dates.Parse(content)|
    ensures forall i :: 0 <= i < |Dates.Parse(content)| ==>
      var a, h := Normalize(content)[i], Dates.Parse(content)[i];
      && a == DateAnnotation(h)
      && a.source == Some(Source) && a.task.None? && a.kind == Some("date") && Dates.WellFormed(h)
      && a.body == DateParts(h.year, h.month, h.dayOfMonth, h.monthName)
  {
  }

  /** Text that is neither a quantity nor a date is annotated as a number exactly when it is a numeral. */
  lemma {:induction false} NumberWhenNothingElse(content: string)
    requires Units.Parse(content) == [] && Dates.Parse(content) == []
    ensures Normalize(content) != [] <==> Numbers.Parse(content).Some?
    ensures Normalize(content) != [] ==> Normalize(content) == [NumberAnnotation(Numbers.Parse(content).value)]
  {
  }

  /** `LiteralNormalization.run`: visits every cell in column-major order and appends its
      annotations; nothing it does can fail, and it always reports success. */
  method Run(t: Table) returns (ok: bool)
    requires t.Valid()
    modifies t
    ensures ok
    ensures forall c, r :: 0 <= c < t.numCols && 0 <= r < t.numRows ==>
      Get(t.annotations, Key(Cell(c, r))) == Get(old(t.annotations), Key(Cell(c, r))) + Normalize(t.Content(c, r))
    ensures forall key :: key !in CellKeys(t.numCols, t.numRows) ==> Get(t.annotations, key) == Get(old(t.annotations), key)
    ensures t.annotations == AppendAll(old(t.annotations), CellKeys(t.numCols, t.numRows), Values(Outcomes(Normalized, t.CellContents())))
  {
    var failure, _ := t.AnnotateCells(Normalized);
    if failure.Some? {
      assert false;
    }
    ok := true;
  }

  /** `Normalize` as a cell step that never fails. */
  function Normalized(content: string): Result<seq<Annotation>>
  {
    Ok(Normalize(content))
  }
}
