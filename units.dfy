/** `UnitParser` (wtu/task/literalnormalization.py): a decimal value, optional whitespace and
    the spelling of one of six units of length or mass. */
module Units {
  import opened Common
  import opened Text

  /** The units in the order the parser's tables list them: length (m, km, cm), then mass (kg, t, g). */
  datatype Unit = Metre | Kilometre | Centimetre | Kilogram | Tonne | Gram

  const AllUnits: seq<Unit> := [Metre, Kilometre, Centimetre, Kilogram, Tonne, Gram]

  function Name(u: Unit): string
  {
    match u
    case Metre => "m"
    case Kilometre => "km"
    case Centimetre => "cm"
    case Kilogram => "kg"
    case Tonne => "t"
    case Gram => "g"
  }

  /** The unit's `data_type`, as each entry of the table spells it. */
  function DataType(u: Unit): string
  {
    match u
    case Metre => "dbo:m"
    case Kilometre => "dbo:km"
    case Centimetre => "dbo:cm"
    case Kilogram => "dbo:kg"
    case Tonne => "dbo:t"
    case Gram => "dbo:g"
  }

  /** Each data type is the DBpedia ontology datatype named after its unit. */
  lemma {:induction false} DataTypeNamed(u: Unit)
    ensures DataType(u) == "dbo:" + Name(u)
  {
    match u
    case Metre =>
    case Kilometre =>
    case Centimetre =>
    case Kilogram =>
    case Tonne =>
    case Gram =>
  }

  /** Different units have different data types. */
  lemma {:induction false} DataTypeInjective(u: Unit, v: Unit)
    requires DataType(u) == DataType(v)
    ensures u == v
  {
    DataTypeNamed(u);
    DataTypeNamed(v);
    assert Name(u) == DataType(u)[4..] == DataType(v)[4..] == Name(v);
  }

  /** The multiplier into the quantity's base unit (metre for length, kilogram for mass). */
  function Factor(u: Unit): real
  {
    match u
    case Metre => 1.0
    case Kilometre => 1000.0
    case Centimetre => 0.01
    case Kilogram => 1.0
    case Tonne => 1000.0
    case Gram => 0.001
  }

  /** `value * unit["factor"]`, the factor written out per unit so that the product stays linear. */
  function Scale(v: real, u: Unit): real
  {
    match u
    case Metre => v * 1.0
    case Kilometre => v * 1000.0
    case Centimetre => v * 0.01
    case Kilogram => v * 1.0
    case Tonne => v * 1000.0
    case Gram => v * 0.001
  }

  lemma ScaleByFactor(v: real, u: Unit)
    ensures Scale(v, u) == v * Factor(u)
  {
  }

  function QuantityName(u: Unit): string
  {
    if u in {Metre, Kilometre, Centimetre} then "length" else "mass"
  }

  /** `m(?:eters?)?` */
  predicate MetreWord(w: string) { w == "m" || w == "meter" || w == "meters" }

  /** `g(?:ramm?s?)?` */
  predicate GramWord(w: string) { w == "g" || w == "gram" || w == "gramm" || w == "grams" || w == "gramms" }

  /** `t(?:onn?s)?` */
  predicate TonneWord(w: string) { w == "t" || w == "tons" || w == "tonns" }

  /** The metre or the gram spelling. */
  predicate BaseWord(gram: bool, w: string) { if gram then GramWord(w) else MetreWord(w) }

  /** "<letter><word>" or "<prefix>", optional whitespace, "<word>": `k(?:ilo\s*)?` and `c(?:enti\s*)?`. */
  predicate Prefixed(w: string, letter: char, prefix: string, gram: bool)
  {
    (|w| > 0 && w[0] == letter && BaseWord(gram, w[1..]))
    || (StartsWith(w, prefix) && var rest := w[|prefix|..]; BaseWord(gram, rest[SpaceRun(rest)..]))
  }

  /** The spellings the pattern of unit `u` accepts after the value. */
  predicate Spelling(u: Unit, w: string)
  {
    match u
    case Metre => MetreWord(w)
    case Kilometre => Prefixed(w, 'k', "kilo", false)
    case Centimetre => Prefixed(w, 'c', "centi", false)
    case Kilogram => Prefixed(w, 'k', "kilo", true)
    case Tonne => TonneWord(w)
    case Gram => GramWord(w)
  }

  /** Length of the value `[0-9]+(?:\.[0-9]+)?` at the head of `s`: the digit run, extended by a
      point and a second digit run when one follows. */
  function ValueLength(s: string): (n: nat)
    ensures n <= |s|
  {
    var a := DigitRun(s);
    if a < |s| && s[a] == '.' && DigitRun(s[a + 1..]) > 0 then a + 1 + DigitRun(s[a + 1..]) else a
  }

  /** `float` of the value text. */
  function ValueOf(s: string): (v: real)
    requires DigitRun(s) > 0
    ensures v >= 0.0
  {
    var a := DigitRun(s);
    var n := ValueLength(s);
    if n == a then DigitsValue(s[..a]) as real
    else
      assert s[a + 1..n] == s[a + 1..][..n - a - 1];
      DecimalValue(s[..a], s[a + 1..n])
  }

  /** What follows the value and the whitespace after it. */
  function UnitText(t: string): string
  {
    var rest := t[ValueLength(t)..];
    rest[SpaceRun(rest)..]
  }

  /** Whether the pattern of `u` matches `t` in full. */
  predicate Matches(u: Unit, t: string)
  {
    DigitRun(t) > 0 && Spelling(u, UnitText(t))
  }

  /** One hypothesis: `value`, `value_normalized`, and the unit (whose name, data type and quantity
      follow from it). */
  datatype UnitHypo = UnitHypo(value: real, valueNormalized: real, unit: Unit)

  function IndexOf(u: Unit): (i: nat)
    ensures i < |AllUnits| && AllUnits[i] == u
  {
    match u
    case Metre => 0
    case Kilometre => 1
    case Centimetre => 2
    case Kilogram => 3
    case Tonne => 4
    case Gram => 5
  }

  /** What the pattern of `u` contributes for `t`: a hypothesis when it matches. */
  function Attempt(u: Unit, t: string): (h: Option<UnitHypo>)
    ensures h.Some? <==> Matches(u, t)
    ensures h.Some? ==> (h.value.unit == u && h.value.value == ValueOf(t)
      && h.value.valueNormalized == Scale(h.value.value, u))
  {
    if Matches(u, t) then
      var v := ValueOf(t);
      Some(UnitHypo(v, Scale(v, u), u))
    else None
  }

  /** The outcome of each unit's pattern on `t`, in table order. */
  function Attempts(t: string): (c: seq<Option<UnitHypo>>)
    ensures |c| == |AllUnits| && forall j :: 0 <= j < |c| ==> c[j] == Attempt(AllUnits[j], t)
  {
    seq(|AllUnits|, j requires 0 <= j < |AllUnits| => Attempt(AllUnits[j], t))
  }

  /** The hypotheses among `c[i..]`, in order. */
  function Found(c: seq<Option<UnitHypo>>, i: nat): (r: seq<UnitHypo>)
    requires |c| == |AllUnits| && i <= |c|
    requires forall j :: 0 <= j < |c| && c[j].Some? ==> c[j].value.unit == AllUnits[j]
    ensures forall k :: 0 <= k < |r| ==> i <= IndexOf(r[k].unit) && c[IndexOf(r[k].unit)] == Some(r[k])
    ensures forall a, b :: 0 <= a < b < |r| ==> IndexOf(r[a].unit) < IndexOf(r[b].unit)
    ensures forall j :: i <= j < |c| && c[j].Some? ==> c[j].value in r
    decreases |c| - i
  {
    if i == |c| then []
    else
      var rest := Found(c, i + 1);
      match c[i]
      case None => rest
      case Some(h) => assert IndexOf(h.unit) == i; [h] + rest
  }

  /** `UnitParser.parse`: in table order, the hypotheses of the units whose patterns match;
      each is what `Attempt` makes of its unit, so it carries the value written and that value
      converted into the base unit. */
  function Parse(s: string): (r: seq<UnitHypo>)
    ensures forall k :: 0 <= k < |r| ==> Attempt(r[k].unit, BeforeFinalNewline(s)) == Some(r[k])
    ensures forall a, b :: 0 <= a < b < |r| ==> IndexOf(r[a].unit) < IndexOf(r[b].unit)
  {
    Found(Attempts(BeforeFinalNewline(s)), 0)
  }

  /** Each hypothesis is read from a text its unit's pattern matches, with the value written and
      that value converted into the base unit. */
  lemma ParseSound(s: string, k: nat)
    requires k < |Parse(s)|
    ensures var t := BeforeFinalNewline(s); var h := Parse(s)[k];
      Matches(h.unit, t) && h.value == ValueOf(t) && h.valueNormalized == Scale(h.value, h.unit)
  {
    AttemptYields(BeforeFinalNewline(s), Parse(s)[k]);
  }

  lemma AttemptYields(t: string, h: UnitHypo)
    requires Attempt(h.unit, t) == Some(h)
    ensures Matches(h.unit, t) && h.value == ValueOf(t) && h.valueNormalized == Scale(h.value, h.unit)
  {
  }

  /** Every unit whose pattern matches has its hypothesis among the results. */
  lemma ParseFinds(s: string, u: Unit)
    requires Matches(u, BeforeFinalNewline(s))
    ensures Attempt(u, BeforeFinalNewline(s)).value in Parse(s)
    ensures exists k :: 0 <= k < |Parse(s)| && Parse(s)[k].unit == u
  {
    var c := Attempts(BeforeFinalNewline(s));
    var h := Attempt(u, BeforeFinalNewline(s)).value;
    assert c[IndexOf(u)] == Some(h);
    var r := Parse(s);
    var k :| 0 <= k < |r| && r[k] == h;
  }

  // ---------------------------------------------------------------- the spellings are exclusive

  /** The first letter of every spelling of `u`. */
  function Head(u: Unit): char
  {
    match u
    case Metre => 'm'
    case Kilometre => 'k'
    case Centimetre => 'c'
    case Kilogram => 'k'
    case Tonne => 't'
    case Gram => 'g'
  }

  lemma BaseWordHead(gram: bool, w: string)
    requires BaseWord(gram, w)
    ensures |w| > 0 && w[0] == (if gram then 'g' else 'm')
  {
  }

  /** The metre or gram word of a kilo- or centi- spelling: after the letter, or after the
      prefix and whitespace when the text continues with the prefix. */
  function PrefixedBase(w: string, prefix: string): string
    requires |w| > 0
  {
    if StartsWith(w, prefix) then var rest := w[|prefix|..]; rest[SpaceRun(rest)..] else w[1..]
  }

  lemma {:induction false} PrefixedForm(w: string, letter: char, prefix: string, gram: bool)
    requires |prefix| > 1 && prefix[0] == letter && prefix[1] != 'g' && prefix[1] != 'm'
    requires Prefixed(w, letter, prefix, gram)
    ensures |w| > 0 && w[0] == letter && BaseWord(gram, PrefixedBase(w, prefix))
  {
    if |w| > 0 && w[0] == letter && BaseWord(gram, w[1..]) {
      BaseWordHead(gram, w[1..]);
      if StartsWith(w, prefix) {
        assert false;
      }
    } else {
      assert w[0] == w[..|prefix|][0] == prefix[0];
    }
  }

  /** The unit a spelling names, decided letter by letter. */
  function UnitOf(w: string): Option<Unit>
  {
    if w == [] then None
    else if w[0] == 'm' then (if MetreWord(w) then Some(Metre) else None)
    else if w[0] == 't' then (if TonneWord(w) then Some(Tonne) else None)
    else if w[0] == 'g' then (if GramWord(w) then Some(Gram) else None)
    else if w[0] == 'c' then (if Prefixed(w, 'c', "centi", false) then Some(Centimetre) else None)
    else if w[0] == 'k' then
      (if Prefixed(w, 'k', "kilo", false) then Some(Kilometre)
       else if Prefixed(w, 'k', "kilo", true) then Some(Kilogram) else None)
    else None
  }

  /** Each spelling names exactly one unit: every pattern that accepts `w` is the one `UnitOf` picks. */
  lemma {:induction false} SpellingNamesOneUnit(u: Unit, w: string)
    requires Spelling(u, w)
    ensures UnitOf(w) == Some(u)
  {
    match u
    case Metre =>
      assert w[0] == 'm';
    case Tonne =>
      assert w[0] == 't';
    case Gram =>
      assert w[0] == 'g';
    case Centimetre =>
      PrefixedForm(w, 'c', "centi", false);
    case Kilometre =>
      PrefixedForm(w, 'k', "kilo", false);
    case Kilogram =>
      PrefixedForm(w, 'k', "kilo", true);
      BaseWordHead(true, PrefixedBase(w, "kilo"));
      if Prefixed(w, 'k', "kilo", false) {
        PrefixedForm(w, 'k', "kilo", false);
        BaseWordHead(false, PrefixedBase(w, "kilo"));
        assert false;
      }
  }

  /** No text is spelled as two different units, so a text has at most one unit hypothesis. */
  lemma {:induction false} AtMostOneHypothesis(s: string)
    ensures |Parse(s)| <= 1
  {
    var r := Parse(s);
    if |r| > 1 {
      var t := BeforeFinalNewline(s);
      assert Attempt(r[0].unit, t).Some? && Attempt(r[1].unit, t).Some?;
      SpellingNamesOneUnit(r[0].unit, UnitText(t));
      SpellingNamesOneUnit(r[1].unit, UnitText(t));
      assert false;
    }
  }

  predicate IsLetter(ch: char) { 'a' <= ch <= 'z' }

  /** Every spelling starts and ends with a letter. */
  lemma {:induction false} SpellingShape(u: Unit, w: string)
    requires Spelling(u, w)
    ensures |w| > 0 && IsLetter(w[0]) && IsLetter(w[|w| - 1])
  {
    match u
    case Metre => BaseShape(false, w);
    case Tonne =>
    case Gram => BaseShape(true, w);
    case Centimetre => PrefixedShape(w, 'c', "centi", false);
    case Kilometre => PrefixedShape(w, 'k', "kilo", false);
    case Kilogram => PrefixedShape(w, 'k', "kilo", true);
  }

  lemma BaseShape(gram: bool, w: string)
    requires BaseWord(gram, w)
    ensures |w| > 0 && IsLetter(w[0]) && IsLetter(w[|w| - 1])
  {
  }

  lemma PrefixedShape(w: string, letter: char, prefix: string, gram: bool)
    requires |prefix| > 1 && prefix[0] == letter && IsLetter(letter) && prefix[1] != 'g' && prefix[1] != 'm'
    requires Prefixed(w, letter, prefix, gram)
    ensures |w| > 0 && IsLetter(w[0]) && IsLetter(w[|w| - 1])
  {
    PrefixedForm(w, letter, prefix, gram);
    BaseShape(gram, PrefixedBase(w, prefix));
    PrefixedLast(w, prefix);
  }

  lemma PrefixedLast(w: string, prefix: string)
    requires |w| > 0 && |PrefixedBase(w, prefix)| > 0
    requires var b := PrefixedBase(w, prefix); IsLetter(b[|b| - 1])
    ensures IsLetter(w[|w| - 1])
  {
    var b := PrefixedBase(w, prefix);
    if StartsWith(w, prefix) {
      var rest := w[|prefix|..];
      assert b == w[|prefix| + SpaceRun(rest)..];
    }
    assert b[|b| - 1] == w[|w| - 1];
  }

  /** The value as it is written: digits, and a point and more digits when `fp` is not empty. */
  function ValueText(ip: string, fp: string): string
  {
    if fp == [] then ip else ip + "." + fp
  }

  /** The value at the head of "<value><after>" is the whole value written, when `after` starts
      with neither a digit nor a point. */
  lemma {:induction false} ValueOfText(ip: string, fp: string, after: string)
    requires |ip| > 0 && AllDigits(ip) && AllDigits(fp)
    requires |after| > 0 && after[0] != '.' && !IsDigit(after[0])
    ensures ValueLength(ValueText(ip, fp) + after) == |ValueText(ip, fp)|
    ensures DigitRun(ValueText(ip, fp) + after) > 0
    ensures ValueOf(ValueText(ip, fp) + after) == if fp == [] then DigitsValue(ip) as real else DecimalValue(ip, fp)
  {
    var vt := ValueText(ip, fp);
    var t := vt + after;
    if fp == [] {
      DigitRunOf(ip, after);
      assert t[..|ip|] == ip;
    } else {
      assert t == ip + ("." + fp + after);
      DigitRunOf(ip, "." + fp + after);
      assert t[|ip| + 1..] == fp + after;
      DigitRunOf(fp, after);
      assert t[..|ip|] == ip && t[|ip| + 1..|vt|] == fp;
    }
  }

  /** A text one unit's pattern matches yields exactly that unit's hypothesis. */
  lemma {:induction false} ParseSingle(t: string, u: Unit, v: real)
    requires BeforeFinalNewline(t) == t && Matches(u, t) && ValueOf(t) == v
    ensures |Parse(t)| == 1 && Parse(t)[0] == UnitHypo(v, Scale(v, u), u)
  {
    AtMostOneHypothesis(t);
    ParseFinds(t, u);
  }

  /** Every value, followed by any whitespace and any spelling of a unit, is read as exactly one
      hypothesis of that unit, carrying the value written and its conversion into the base unit. */
  lemma {:induction false} ParseComplete(ip: string, fp: string, sp: string, u: Unit, w: string)
    requires |ip| > 0 && AllDigits(ip) && AllDigits(fp) && AllSpaces(sp) && Spelling(u, w)
    ensures var v := if fp == [] then DigitsValue(ip) as real else DecimalValue(ip, fp);
      var r := Parse(ValueText(ip, fp) + sp + w);
      |r| == 1 && r[0] == UnitHypo(v, Scale(v, u), u)
  {
    var v := if fp == [] then DigitsValue(ip) as real else DecimalValue(ip, fp);
    WrittenUnitMatches(ip, fp, sp, u, w);
    ParseSingle(ValueText(ip, fp) + sp + w, u, v);
  }

  lemma {:induction false} WrittenUnitMatches(ip: string, fp: string, sp: string, u: Unit, w: string)
    requires |ip| > 0 && AllDigits(ip) && AllDigits(fp) && AllSpaces(sp) && Spelling(u, w)
    ensures var t := ValueText(ip, fp) + sp + w;
      && BeforeFinalNewline(t) == t && Matches(u, t)
      && ValueOf(t) == if fp == [] then DigitsValue(ip) as real else DecimalValue(ip, fp)
  {
    SpellingShape(u, w);
    var vt := ValueText(ip, fp);
    var after := sp + w;
    var t := vt + after;
    assert t == vt + sp + w;
    assert t[|t| - 1] == w[|w| - 1];
    SpaceRunOf(sp, w);
    assert after[0] != '.' && !IsDigit(after[0]) by {
      if |sp| > 0 { assert after[0] == sp[0] && IsSpace(sp[0]); } else { assert after[0] == w[0]; }
    }
    ValueOfText(ip, fp, after);
    assert t[|vt|..] == after;
    assert UnitText(t) == w;
  }
}
