/** `DateParser` (wtu/task/literalnormalization.py): nine date notations, each a hand-coded
    recogniser for its pattern; every notation that matches contributes one hypothesis. */
module Dates {
  import opened Common
  import opened Text

  /** `DateParser.month_name` in insertion order ("May" is listed twice in the literal and kept once). */
  const MonthNames: seq<(string, nat)> := [
    ("January", 1), ("February", 2), ("March", 3), ("April", 4), ("May", 5), ("June", 6),
    ("July", 7), ("August", 8), ("September", 9), ("October", 10), ("November", 11), ("December", 12),
    ("Jan", 1), ("Feb", 2), ("Mar", 3), ("Apr", 4), ("Jun", 6), ("Jul", 7), ("Aug", 8),
    ("Sep", 9), ("Oct", 10), ("Nov", 11), ("Dec", 12)
  ]

  const NotationNames: seq<string> := [
    "YYYY-MM-DD", "Mon DD, YYYY", "DD.MM.YYYY", "MM.DD.YYYY", "DD. Mon YYYY",
    "Mon YYYY", "MM YYYY", "YYYY Mon", "YYYY MM"
  ]

  function MonthNumberFrom(name: string, i: nat): (k: Option<nat>)
    requires i <= |MonthNames|
    ensures k.Some? ==> 1 <= k.value <= 12
    decreases |MonthNames| - i
  {
    if i == |MonthNames| then None
    else if MonthNames[i].0 == name then Some(MonthNames[i].1)
    else MonthNumberFrom(name, i + 1)
  }

  /** The month a name of the table stands for; `None` for any other text. */
  function MonthNumber(name: string): (k: Option<nat>)
    ensures k.Some? ==> 1 <= k.value <= 12
  {
    MonthNumberFrom(name, 0)
  }

  /** One hypothesis: the notation (an index into `NotationNames`) and `year`, `month`,
      `day_of_month`, with `None` for the parts the notation lacks, plus `month_name` when present. */
  datatype DateHypo = DateHypo(notation: nat, year: Option<int>, month: Option<int>,
                               dayOfMonth: Option<int>, monthName: Option<string>)

  predicate Named(notation: nat) { notation == 1 || notation == 4 || notation == 5 || notation == 7 }
  predicate HasDay(notation: nat) { notation <= 4 }

  /** What every hypothesis satisfies: a year read from four digits; a numeric month in 0..12
      (the pattern admits 0 and 00) or a named month in 1..12; a day in 1..31 exactly when the
      notation has one. */
  predicate WellFormed(h: DateHypo)
  {
    && h.notation < 9
    && h.year.Some? && 0 <= h.year.value <= 9999
    && h.month.Some?
    && (if Named(h.notation)
        then h.monthName.Some? && MonthNumber(h.monthName.value) == Some(h.month.value) && 1 <= h.month.value <= 12
        else h.monthName.None? && 0 <= h.month.value <= 12)
    && (h.dayOfMonth.Some? <==> HasDay(h.notation))
    && (h.dayOfMonth.Some? ==> 1 <= h.dayOfMonth.value <= 31)
  }

  // ---------------------------------------------------------------- tokens

  /** `[0-9]{4}` */
  predicate YearText(t: string) { |t| == 4 && AllDigits(t) }

  /** `1[012]|0?[0-9]` */
  predicate MonthText(t: string)
  {
    AllDigits(t) && (|t| == 1 || (|t| == 2 && (t[0] == '0' || (t[0] == '1' && t[1] <= '2'))))
  }

  /** `[12][0-9]|3[01]|0?[1-9]` */
  predicate DayText(t: string)
  {
    AllDigits(t)
    && ((|t| == 1 && t[0] != '0')
        || (|t| == 2 && (t[0] == '1' || t[0] == '2' || (t[0] == '3' && t[1] <= '1') || (t[0] == '0' && t[1] != '0'))))
  }

  /** `[/.-]` */
  predicate IsDateSep(ch: char) { ch == '/' || ch == '.' || ch == '-' }

  /** `[ /-]` */
  predicate IsGapChar(ch: char) { ch == ' ' || ch == '/' || ch == '-' }

  lemma OneDigit(t: string)
    requires |t| == 1 && AllDigits(t)
    ensures DigitsValue(t) == DigitValue(t[0])
  {
    assert t[..0] == [];
  }

  lemma TwoDigits(t: string)
    requires |t| == 2 && AllDigits(t)
    ensures DigitsValue(t) == DigitValue(t[0]) * 10 + DigitValue(t[1])
  {
    var h := t[..1];
    assert h[..0] == [] && h[0] == t[0];
    assert DigitsValue(h) == DigitValue(t[0]);
    assert DigitsValue(t) == DigitsValue(h) * 10 + DigitValue(t[1]);
  }

  function YearValue(t: string): (v: int)
    requires YearText(t)
    ensures 0 <= v <= 9999
  {
    DigitsValueBound(t);
    assert Pow10(4) == 10000.0 by {
      assert Pow10(1) == 10.0 * Pow10(0);
      assert Pow10(2) == 10.0 * Pow10(1);
      assert Pow10(3) == 10.0 * Pow10(2);
      assert Pow10(4) == 10.0 * Pow10(3);
    }
    assert Pow10(4).Floor == 10000;
    DigitsValue(t)
  }

  function MonthValue(t: string): (v: int)
    requires MonthText(t)
    ensures 0 <= v <= 12
  {
    if |t| == 2 then TwoDigits(t); DigitsValue(t) else OneDigit(t); DigitsValue(t)
  }

  function DayValue(t: string): (v: int)
    requires DayText(t)
    ensures 1 <= v <= 31
  {
    if |t| == 2 then TwoDigits(t); DigitsValue(t) else OneDigit(t); DigitsValue(t)
  }

  /** Length of the longest prefix that is neither whitespace nor ',' (where a month name must end). */
  function NameRun(s: string): (n: nat)
    ensures n <= |s|
  {
    if s == [] || IsSpace(s[0]) || s[0] == ',' then 0 else 1 + NameRun(s[1..])
  }

  /** Length of the longest prefix of `[ /-]` characters. */
  function GapRun(s: string): (n: nat)
    ensures n <= |s| && forall i :: 0 <= i < n ==> IsGapChar(s[i])
  {
    if s == [] || !IsGapChar(s[0]) then 0 else 1 + GapRun(s[1..])
  }

  /** `\s*,?\s+` */
  predicate CommaGap(g: string)
  {
    |g| > 0 && IsSpace(g[|g| - 1])
    && (AllSpaces(g) || (var i := FirstIndexOf(g, ','); i < |g| && AllSpaces(g[..i]) && AllSpaces(g[i + 1..])))
  }

  /** `,?\s+` */
  predicate OptCommaSpaces(g: string)
  {
    |g| > 0 && (AllSpaces(g) || (g[0] == ',' && |g| > 1 && AllSpaces(g[1..])))
  }

  /** Splits "<digits><sep><digits><sep><rest>" with date separators, as the three numeric notations read it. */
  function Split3(s: string): Option<(string, string, string)>
  {
    var a := DigitRun(s);
    if a == |s| || !IsDateSep(s[a]) then None
    else
      var rest := s[a + 1..];
      var b := DigitRun(rest);
      if b == |rest| || !IsDateSep(rest[b]) then None
      else Some((s[..a], rest[..b], rest[b + 1..]))
  }

  // ---------------------------------------------------------------- the nine notations

  /** YYYY-MM-DD */
  function MatchYearMonthDay(s: string): (r: Option<DateHypo>)
    ensures r.Some? ==> r.value.notation == 0 && WellFormed(r.value)
  {
    match Split3(s)
    case None => None
    case Some((a, b, c)) =>
      if YearText(a) && MonthText(b) && DayText(c)
      then Some(DateHypo(0, Some(YearValue(a)), Some(MonthValue(b)), Some(DayValue(c)), None))
      else None
  }

  /** Mon DD, YYYY */
  function MatchNameDayYear(s: string): (r: Option<DateHypo>)
    ensures r.Some? ==> r.value.notation == 1 && WellFormed(r.value)
  {
    var n := NameRun(s);
    var k := MonthNumber(s[..n]);
    var r1 := s[n..];
    var w := SpaceRun(r1);
    var r2 := r1[w..];
    var d := DigitRun(r2);
    var r3 := r2[d..];
    if k.None? || w == 0 || !DayText(r2[..d]) || |r3| < 4 || !YearText(r3[|r3| - 4..]) || !CommaGap(r3[..|r3| - 4])
    then None
    else Some(DateHypo(1, Some(YearValue(r3[|r3| - 4..])), Some(k.value), Some(DayValue(r2[..d])), Some(s[..n])))
  }

  /** DD.MM.YYYY */
  function MatchDayMonthYear(s: string): (r: Option<DateHypo>)
    ensures r.Some? ==> r.value.notation == 2 && WellFormed(r.value)
  {
    match Split3(s)
    case None => None
    case Some((a, b, c)) =>
      if DayText(a) && MonthText(b) && YearText(c)
      then Some(DateHypo(2, Some(YearValue(c)), Some(MonthValue(b)), Some(DayValue(a)), None))
      else None
  }

  /** MM.DD.YYYY */
  function MatchMonthDayYear(s: string): (r: Option<DateHypo>)
    ensures r.Some? ==> r.value.notation == 3 && WellFormed(r.value)
  {
    match Split3(s)
    case None => None
    case Some((a, b, c)) =>
      if MonthText(a) && DayText(b) && YearText(c)
      then Some(DateHypo(3, Some(YearValue(c)), Some(MonthValue(a)), Some(DayValue(b)), None))
      else None
  }

  /** `\.?`: the text after an optional '.'. */
  function AfterDot(t: string): (u: string)
    ensures u == t || (t != [] && t[0] == '.' && u == t[1..])
  {
    if |t| > 0 && t[0] == '.' then t[1..] else t
  }

  /** `\s+<month name>`: the name, its month and the text after it. */
  function SpacedName(t: string): (r: Option<(string, nat, string)>)
    ensures r.Some? ==> MonthNumber(r.value.0) == Some(r.value.1)
  {
    var w := SpaceRun(t);
    var u := t[w..];
    var n := NameRun(u);
    var k := MonthNumber(u[..n]);
    if w == 0 || k.None? then None else Some((u[..n], k.value, u[n..]))
  }

  /** `\s+[0-9]{4}` up to the end: the year. */
  function SpacedYear(t: string): (r: Option<int>)
    ensures r.Some? ==> 0 <= r.value <= 9999
  {
    if |t| <= 4 || !YearText(t[|t| - 4..]) || !AllSpaces(t[..|t| - 4]) then None
    else Some(YearValue(t[|t| - 4..]))
  }

  /** DD. Mon YYYY */
  function MatchDayNameYear(s: string): (r: Option<DateHypo>)
    ensures r.Some? ==> r.value.notation == 4 && WellFormed(r.value)
  {
    var d := DigitRun(s);
    if !DayText(s[..d]) then None
    else match SpacedName(AfterDot(s[d..]))
      case None => None
      case Some((name, k, rest)) =>
        match SpacedYear(rest)
        case None => None
        case Some(y) => Some(DateHypo(4, Some(y), Some(k), Some(DayValue(s[..d])), Some(name)))
  }

  /** Mon YYYY */
  function MatchNameYear(s: string): (r: Option<DateHypo>)
    ensures r.Some? ==> r.value.notation == 5 && WellFormed(r.value)
  {
    var n := NameRun(s);
    var k := MonthNumber(s[..n]);
    var r1 := s[n..];
    if k.None? || |r1| < 4 || !YearText(r1[|r1| - 4..]) || !OptCommaSpaces(r1[..|r1| - 4])
    then None
    else Some(DateHypo(5, Some(YearValue(r1[|r1| - 4..])), Some(k.value), None, Some(s[..n])))
  }

  /** MM YYYY */
  function MatchMonthYear(s: string): (r: Option<DateHypo>)
    ensures r.Some? ==> r.value.notation == 6 && WellFormed(r.value)
  {
    var m := DigitRun(s);
    var r0 := s[m..];
    var r1 := if |r0| > 0 && r0[0] == '.' then r0[1..] else r0;
    if !MonthText(s[..m]) || |r1| < 5 || !YearText(r1[|r1| - 4..]) || GapRun(r1) != |r1| - 4
    then None
    else Some(DateHypo(6, Some(YearValue(r1[|r1| - 4..])), Some(MonthValue(s[..m])), None, None))
  }

  /** YYYY Mon */
  function MatchYearName(s: string): (r: Option<DateHypo>)
    ensures r.Some? ==> r.value.notation == 7 && WellFormed(r.value)
  {
    if |s| < 4 || !YearText(s[..4]) then None
    else
      var r1 := s[4..];
      var w := SpaceRun(r1);
      var k := MonthNumber(r1[w..]);
      if w == 0 || k.None? then None
      else Some(DateHypo(7, Some(YearValue(s[..4])), Some(k.value), None, Some(r1[w..])))
  }

  /** YYYY MM */
  function MatchYearMonth(s: string): (r: Option<DateHypo>)
    ensures r.Some? ==> r.value.notation == 8 && WellFormed(r.value)
  {
    if |s| < 4 || !YearText(s[..4]) then None
    else
      var r1 := s[4..];
      var g := GapRun(r1);
      var r2 := r1[g..];
      var m := DigitRun(r2);
      var tail := r2[m..];
      if g == 0 || !MonthText(r2[..m]) || !(tail == [] || tail == ".") then None
      else Some(DateHypo(8, Some(YearValue(s[..4])), Some(MonthValue(r2[..m])), None, None))
  }

  /** The recogniser of notation `i`, applied to the text before any final newline. */
  function Match(i: nat, s: string): (r: Option<DateHypo>)
    requires i < 9
    ensures r.Some? ==> r.value.notation == i && WellFormed(r.value)
  {
    var t := BeforeFinalNewline(s);
    if i == 0 then MatchYearMonthDay(t)
    else if i == 1 then MatchNameDayYear(t)
    else if i == 2 then MatchDayMonthYear(t)
    else if i == 3 then MatchMonthDayYear(t)
    else if i == 4 then MatchDayNameYear(t)
    else if i == 5 then MatchNameYear(t)
    else if i == 6 then MatchMonthYear(t)
    else if i == 7 then MatchYearName(t)
    else MatchYearMonth(t)
  }

  /** The outcome of each of the nine recognisers on `s`, in notation order. */
  function Candidates(s: string): (c: seq<Option<DateHypo>>)
    ensures |c| == 9 && forall i :: 0 <= i < 9 ==> c[i] == Match(i, s)
  {
    seq(9, i requires 0 <= i < 9 => Match(i, s))
  }

  /** The hypotheses among `c[i..]`, in order. */
  function Found(c: seq<Option<DateHypo>>, i: nat): (r: seq<DateHypo>)
    requires i <= |c|
    requires forall j :: 0 <= j < |c| && c[j].Some? ==> c[j].value.notation == j
    ensures |r| <= |c| - i
    ensures forall k :: 0 <= k < |r| ==> i <= r[k].notation < |c| && c[r[k].notation] == Some(r[k])
    ensures forall a, b :: 0 <= a < b < |r| ==> r[a].notation < r[b].notation
    ensures forall j :: i <= j < |c| && c[j].Some? ==> c[j].value in r
    decreases |c| - i
  {
    if i == |c| then []
    else
      var rest := Found(c, i + 1);
      match c[i]
      case None => rest
      case Some(h) => [h] + rest
  }

  /** `DateParser.parse`: at most one hypothesis per notation, in notation-list order, each the
      well-formed reading its notation's recogniser makes of `s`. */
  function Parse(s: string): (r: seq<DateHypo>)
    ensures |r| <= 9
    ensures forall k :: 0 <= k < |r| ==> r[k].notation < 9 && WellFormed(r[k]) && Match(r[k].notation, s) == Some(r[k])
    ensures forall a, b :: 0 <= a < b < |r| ==> r[a].notation < r[b].notation
  {
    Found(Candidates(s), 0)
  }

  /** Every notation whose recogniser accepts `s` contributes its reading. */
  lemma ParseFinds(s: string, j: nat)
    requires j < 9 && Match(j, s).Some?
    ensures Match(j, s).value in Parse(s)
  {
    assert Candidates(s)[j] == Match(j, s);
  }

  // ---------------------------------------------------------------- the numeric notations are complete

  /** A digit run followed by a separator splits at that separator. */
  lemma SplitAtSep(x: string, p: char, rest: string)
    requires AllDigits(x) && IsDateSep(p)
    ensures var s := x + ([p] + rest);
      DigitRun(s) == |x| && s[|x|] == p && s[..|x|] == x && s[|x| + 1..] == rest
  {
    DigitRunOf(x, [p] + rest);
    var s := x + ([p] + rest);
    assert s[..|x|] == x;
    assert s[|x| + 1..] == rest;
  }

  lemma Regroup(x: string, p: char, y: string, q: char, z: string)
    ensures x + [p] + y + [q] + z == x + ([p] + (y + ([q] + z)))
  {
  }

  lemma {:induction false} Split3Of(x: string, p: char, y: string, q: char, z: string)
    requires AllDigits(x) && AllDigits(y) && IsDateSep(p) && IsDateSep(q)
    ensures Split3(x + [p] + y + [q] + z) == Some((x, y, z))
  {
    var tail := y + ([q] + z);
    SplitAtSep(x, p, tail);
    SplitAtSep(y, q, z);
    Split3Reads(x + ([p] + tail), x, p, tail, y, q, z);
    Regroup(x, p, y, q, z);
  }

  lemma Split3Reads(s: string, x: string, p: char, tail: string, y: string, q: char, z: string)
    requires IsDateSep(p) && IsDateSep(q)
    requires DigitRun(s) == |x| < |s| && s[|x|] == p && s[..|x|] == x && s[|x| + 1..] == tail
    requires DigitRun(tail) == |y| < |tail| && tail[|y|] == q && tail[..|y|] == y && tail[|y| + 1..] == z
    ensures Split3(s) == Some((x, y, z))
  {
  }

  /** Any year, month and day texts joined by any two separators, each independently one of
      '/', '.', '-', are read by YYYY-MM-DD. */
  lemma YearMonthDayComplete(y: string, p: char, m: string, q: char, d: string)
    requires YearText(y) && MonthText(m) && DayText(d) && IsDateSep(p) && IsDateSep(q)
    ensures MatchYearMonthDay(y + [p] + m + [q] + d)
         == Some(DateHypo(0, Some(YearValue(y)), Some(MonthValue(m)), Some(DayValue(d)), None))
  {
    Split3Of(y, p, m, q, d);
  }

  /** ... by DD.MM.YYYY in day-month-year order ... */
  lemma DayMonthYearComplete(d: string, p: char, m: string, q: char, y: string)
    requires YearText(y) && MonthText(m) && DayText(d) && IsDateSep(p) && IsDateSep(q)
    ensures MatchDayMonthYear(d + [p] + m + [q] + y)
         == Some(DateHypo(2, Some(YearValue(y)), Some(MonthValue(m)), Some(DayValue(d)), None))
  {
    Split3Of(d, p, m, q, y);
  }

  /** ... and by MM.DD.YYYY in month-day-year order. */
  lemma MonthDayYearComplete(m: string, p: char, d: string, q: char, y: string)
    requires YearText(y) && MonthText(m) && DayText(d) && IsDateSep(p) && IsDateSep(q)
    ensures MatchMonthDayYear(m + [p] + d + [q] + y)
         == Some(DateHypo(3, Some(YearValue(y)), Some(MonthValue(m)), Some(DayValue(d)), None))
  {
    Split3Of(m, p, d, q, y);
  }

  /** A numeric date whose first two fields can each be a day and a month ("01/02/2019") yields
      both the day-first and the month-first reading. */
  lemma {:induction false} AmbiguousNumericDate(a: string, p: char, b: string, q: char, y: string)
    requires DayText(a) && MonthText(a) && DayText(b) && MonthText(b) && YearText(y)
    requires IsDateSep(p) && IsDateSep(q)
    ensures DateHypo(2, Some(YearValue(y)), Some(MonthValue(b)), Some(DayValue(a)), None) in Parse(a + [p] + b + [q] + y)
    ensures DateHypo(3, Some(YearValue(y)), Some(MonthValue(a)), Some(DayValue(b)), None) in Parse(a + [p] + b + [q] + y)
  {
    var s := a + [p] + b + [q] + y;
    assert s[|s| - 1] == y[3];
    assert BeforeFinalNewline(s) == s;
    DayMonthYearComplete(a, p, b, q, y);
    MonthDayYearComplete(a, p, b, q, y);
    ParseFinds(s, 2);
    ParseFinds(s, 3);
  }

  // ---------------------------------------------------------------- the notations with names or two fields are complete

  predicate IsLetter(ch: char) { 'A' <= ch <= 'Z' || 'a' <= ch <= 'z' }

  /** Every month name is a non-empty run of letters. */
  lemma {:induction false} MonthNameLetters(name: string, i: nat)
    requires i <= |MonthNames| && MonthNumberFrom(name, i).Some?
    ensures |name| > 0 && forall c :: 0 <= c < |name| ==> IsLetter(name[c])
    decreases |MonthNames| - i
  {
    if MonthNames[i].0 != name {
      MonthNameLetters(name, i + 1);
    }
  }

  lemma {:induction false} NameRunOf(x: string, rest: string)
    requires forall c :: 0 <= c < |x| ==> IsLetter(x[c])
    requires rest == [] || IsSpace(rest[0]) || rest[0] == ','
    ensures NameRun(x + rest) == |x|
  {
    if x != [] {
      assert (x + rest)[1..] == x[1..] + rest;
      NameRunOf(x[1..], rest);
    }
  }

  lemma {:induction false} GapRunOf(x: string, rest: string)
    requires forall c :: 0 <= c < |x| ==> IsGapChar(x[c])
    requires rest == [] || !IsGapChar(rest[0])
    ensures GapRun(x + rest) == |x|
  {
    if x != [] {
      assert (x + rest)[1..] == x[1..] + rest;
      GapRunOf(x[1..], rest);
    }
  }

  /** "Jan 1, 2016", "December 24 1990": any month name, whitespace, a day, `\s*,?\s+` and a year
      are read by Mon DD, YYYY. */
  lemma NameDayYearComplete(name: string, sp: string, d: string, g: string, y: string)
    requires MonthNumber(name).Some? && sp != [] && AllSpaces(sp) && DayText(d) && CommaGap(g) && YearText(y)
    ensures MatchNameDayYear(name + (sp + (d + (g + y))))
         == Some(DateHypo(1, Some(YearValue(y)), MonthNumber(name), Some(DayValue(d)), Some(name)))
  {
    MonthNameLetters(name, 0);
    NameRunOf(name, sp + (d + (g + y)));
    SpaceRunOf(sp, d + (g + y));
    assert g[0] == ',' || IsSpace(g[0]) by {
      if !AllSpaces(g) {
        var i := FirstIndexOf(g, ',');
        if i > 0 { assert g[0] == g[..i][0]; }
      }
    }
    DigitRunOf(d, g + y);
    NameDayYearReads(name, sp, d, g, y);
  }

  lemma NameDayYearReads(name: string, sp: string, d: string, g: string, y: string)
    requires MonthNumber(name).Some? && sp != [] && DayText(d) && CommaGap(g) && YearText(y)
    requires NameRun(name + (sp + (d + (g + y)))) == |name|
    requires SpaceRun(sp + (d + (g + y))) == |sp| && DigitRun(d + (g + y)) == |d|
    ensures MatchNameDayYear(name + (sp + (d + (g + y))))
         == Some(DateHypo(1, Some(YearValue(y)), MonthNumber(name), Some(DayValue(d)), Some(name)))
  {
    var s := name + (sp + (d + (g + y)));
    assert s[..|name|] == name && s[|name|..] == sp + (d + (g + y));
    assert (sp + (d + (g + y)))[|sp|..] == d + (g + y);
    assert (d + (g + y))[..|d|] == d && (d + (g + y))[|d|..] == g + y;
    assert (g + y)[|g + y| - 4..] == y && (g + y)[..|g + y| - 4] == g;
  }

  lemma SpacedNameOf(sp: string, name: string, rest: string)
    requires sp != [] && AllSpaces(sp) && MonthNumber(name).Some?
    requires rest == [] || IsSpace(rest[0]) || rest[0] == ','
    ensures SpacedName(sp + (name + rest)) == Some((name, MonthNumber(name).value, rest))
  {
    MonthNameLetters(name, 0);
    SpaceRunOf(sp, name + rest);
    assert (sp + (name + rest))[|sp|..] == name + rest;
    NameRunOf(name, rest);
    assert (name + rest)[..|name|] == name && (name + rest)[|name|..] == rest;
  }

  lemma SpacedYearOf(sp: string, y: string)
    requires sp != [] && AllSpaces(sp) && YearText(y)
    ensures SpacedYear(sp + y) == Some(YearValue(y))
  {
    assert (sp + y)[|sp + y| - 4..] == y && (sp + y)[..|sp + y| - 4] == sp;
  }

  /** "21. March 2001", "14 Apr 2017": a day with an optional '.', whitespace, a month name,
      whitespace and a year are read by DD. Mon YYYY. */
  lemma DayNameYearComplete(d: string, dot: string, sp: string, name: string, sp2: string, y: string)
    requires DayText(d) && (dot == "" || dot == ".") && sp != [] && AllSpaces(sp)
    requires MonthNumber(name).Some? && sp2 != [] && AllSpaces(sp2) && YearText(y)
    ensures MatchDayNameYear(d + (dot + (sp + (name + (sp2 + y)))))
         == Some(DateHypo(4, Some(YearValue(y)), MonthNumber(name), Some(DayValue(d)), Some(name)))
  {
    var r1 := sp + (name + (sp2 + y));
    var s := d + (dot + r1);
    DigitRunOf(d, dot + r1);
    assert s[..|d|] == d && s[|d|..] == dot + r1;
    assert AfterDot(dot + r1) == r1 by {
      if dot == "." { assert (dot + r1)[1..] == r1; }
    }
    SpacedNameOf(sp, name, sp2 + y);
    SpacedYearOf(sp2, y);
  }

  /** "March 2017", "April, 2016": a month name, `,?\s+` and a year are read by Mon YYYY. */
  lemma NameYearComplete(name: string, g: string, y: string)
    requires MonthNumber(name).Some? && OptCommaSpaces(g) && YearText(y)
    ensures MatchNameYear(name + (g + y)) == Some(DateHypo(5, Some(YearValue(y)), MonthNumber(name), None, Some(name)))
  {
    MonthNameLetters(name, 0);
    NameRunOf(name, g + y);
    var s := name + (g + y);
    assert s[..|name|] == name && s[|name|..] == g + y;
    assert (g + y)[|g + y| - 4..] == y && (g + y)[..|g + y| - 4] == g;
  }

  /** "6. 1999", "11-2017", "09/2017": a month, an optional '.', a run of ' ', '/' and '-' and a
      year are read by MM YYYY. */
  lemma MonthYearComplete(m: string, dot: string, g: string, y: string)
    requires MonthText(m) && (dot == "" || dot == ".") && g != [] && (forall c :: 0 <= c < |g| ==> IsGapChar(g[c]))
    requires YearText(y)
    ensures MatchMonthYear(m + (dot + (g + y))) == Some(DateHypo(6, Some(YearValue(y)), Some(MonthValue(m)), None, None))
  {
    DigitRunOf(m, dot + (g + y));
    GapRunOf(g, y);
    MonthYearReads(m, dot, g, y);
  }

  lemma MonthYearReads(m: string, dot: string, g: string, y: string)
    requires MonthText(m) && (dot == "" || dot == ".") && g != [] && !IsDigit(g[0]) && YearText(y)
    requires DigitRun(m + (dot + (g + y))) == |m| && GapRun(g + y) == |g|
    ensures MatchMonthYear(m + (dot + (g + y))) == Some(DateHypo(6, Some(YearValue(y)), Some(MonthValue(m)), None, None))
  {
    var s := m + (dot + (g + y));
    assert s[..|m|] == m && s[|m|..] == dot + (g + y);
    var r0 := dot + (g + y);
    assert (if |r0| > 0 && r0[0] == '.' then r0[1..] else r0) == g + y by {
      if dot == "" { assert r0 == g + y; } else { assert r0[0] == '.' && r0[1..] == g + y; }
    }
    assert (g + y)[|g + y| - 4..] == y;
  }

  /** "2017 Jan", "1999 November": a year, whitespace and a month name are read by YYYY Mon. */
  lemma YearNameComplete(y: string, sp: string, name: string)
    requires YearText(y) && sp != [] && AllSpaces(sp) && MonthNumber(name).Some?
    ensures MatchYearName(y + (sp + name)) == Some(DateHypo(7, Some(YearValue(y)), MonthNumber(name), None, Some(name)))
  {
    MonthNameLetters(name, 0);
    var s := y + (sp + name);
    assert s[..4] == y && s[4..] == sp + name;
    SpaceRunOf(sp, name);
    assert (sp + name)[|sp|..] == name;
  }

  /** "2016-11", "2017/06": a year, a run of ' ', '/' and '-', a month and an optional '.' are read
      by YYYY MM. */
  lemma YearMonthComplete(y: string, g: string, m: string, dot: string)
    requires YearText(y) && g != [] && (forall c :: 0 <= c < |g| ==> IsGapChar(g[c])) && MonthText(m)
    requires dot == "" || dot == "."
    ensures MatchYearMonth(y + (g + (m + dot))) == Some(DateHypo(8, Some(YearValue(y)), Some(MonthValue(m)), None, None))
  {
    var s := y + (g + (m + dot));
    assert s[..4] == y && s[4..] == g + (m + dot);
    GapRunOf(g, m + dot);
    assert (g + (m + dot))[|g|..] == m + dot;
    DigitRunOf(m, dot);
    assert (m + dot)[..|m|] == m && (m + dot)[|m|..] == dot;
  }
}
