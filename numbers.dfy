/** `NumericParser` (wtu/task/literalnormalization.py): an optionally signed decimal numeral with
    at most one decimal separator ('.' or ',') and an optional exponent, read as a number with ','
    taken for '.'. */
module Numbers {
  import opened Common
  import opened Text

  predicate IsSign(ch: char) { ch == '+' || ch == '-' }
  predicate IsSeparator(ch: char) { ch == '.' || ch == ',' }
  predicate IsMarker(ch: char) { ch == 'e' || ch == 'E' }

  /** `[Ee][+-]?[0-9]+` */
  datatype Exponent = Exponent(marker: char, sign: Option<char>, digits: string)

  /** `[+-]?([0-9]*[.,])?[0-9]+([Ee][+-]?[0-9]+)?`, one field per part: when `separator` is
      absent, `lead` is empty and the whole mantissa is in `digits`. */
  datatype Numeral = Numeral(sign: Option<char>, lead: string, separator: Option<char>, digits: string,
                             exponent: Option<Exponent>)

  predicate OptionalSign(c: Option<char>) { c.Some? ==> IsSign(c.value) }

  predicate WellFormed(n: Numeral)
  {
    && OptionalSign(n.sign)
    && AllDigits(n.lead)
    && (if n.separator.Some? then IsSeparator(n.separator.value) else n.lead == [])
    && |n.digits| > 0 && AllDigits(n.digits)
    && (n.exponent.Some? ==>
          IsMarker(n.exponent.value.marker) && OptionalSign(n.exponent.value.sign)
          && |n.exponent.value.digits| > 0 && AllDigits(n.exponent.value.digits))
  }

  function OptText(c: Option<char>): string
  {
    if c.Some? then [c.value] else []
  }

  function ExponentText(e: Option<Exponent>): string
  {
    if e.Some? then [e.value.marker] + OptText(e.value.sign) + e.value.digits else []
  }

  /** The numeral as it is written. */
  function Written(n: Numeral): string
  {
    OptText(n.sign) + (n.lead + OptText(n.separator) + n.digits + ExponentText(n.exponent))
  }

  // ---------------------------------------------------------------- reading, stage by stage

  function SignPart(t: string): (Option<char>, string)
  {
    if |t| > 0 && IsSign(t[0]) then (Some(t[0]), t[1..]) else (None, t)
  }

  /** `([0-9]*[.,])?[0-9]+`, and what follows it. */
  function MantissaPart(t: string): Option<(string, Option<char>, string, string)>
  {
    var a := DigitRun(t);
    var (lead, sep, r) := if a < |t| && IsSeparator(t[a]) then (t[..a], Some(t[a]), t[a + 1..]) else ([], None, t);
    var d := DigitRun(r);
    if d == 0 then None else Some((lead, sep, r[..d], r[d..]))
  }

  /** `([Ee][+-]?[0-9]+)?` up to the end of the text. */
  function ExponentPart(t: string): Option<Option<Exponent>>
  {
    if t == [] then Some(None)
    else if !IsMarker(t[0]) then None
    else
      var (sg, r) := SignPart(t[1..]);
      if |r| > 0 && DigitRun(r) == |r| then Some(Some(Exponent(t[0], sg, r))) else None
  }

  /** Reads a whole text as a numeral; `None` when the pattern does not match it. */
  function Decompose(t: string): (r: Option<Numeral>)
    ensures r.Some? ==> WellFormed(r.value) && Written(r.value) == t
  {
    var (sg, r1) := SignPart(t);
    match MantissaPart(r1)
    case None => None
    case Some((lead, sep, digits, r3)) =>
      match ExponentPart(r3)
      case None => None
      case Some(e) =>
        var n := Numeral(sg, lead, sep, digits, e);
        Reassemble(t, sg, r1, lead, sep, digits, r3, e);
        Some(n)
  }

  lemma {:induction false} Reassemble(t: string, sg: Option<char>, r1: string, lead: string, sep: Option<char>,
                                      digits: string, r3: string, e: Option<Exponent>)
    requires SignPart(t) == (sg, r1) && MantissaPart(r1) == Some((lead, sep, digits, r3)) && ExponentPart(r3) == Some(e)
    ensures WellFormed(Numeral(sg, lead, sep, digits, e)) && Written(Numeral(sg, lead, sep, digits, e)) == t
  {
    assert t == OptText(sg) + r1;
    MantissaText(r1);
    ExponentTextOf(r3);
  }

  lemma MantissaText(t: string)
    requires MantissaPart(t).Some?
    ensures var (lead, sep, digits, rest) := MantissaPart(t).value;
      && AllDigits(lead) && AllDigits(digits) && |digits| > 0
      && (if sep.Some? then IsSeparator(sep.value) else lead == [])
      && t == lead + OptText(sep) + digits + rest
  {
    var a := DigitRun(t);
    if a < |t| && IsSeparator(t[a]) {
      var r := t[a + 1..];
      SplitAt(t, a);
      SplitAt(r, DigitRun(r));
      Regroup(t[..a], [t[a]], r[..DigitRun(r)], r[DigitRun(r)..]);
    } else {
      SplitAt(t, DigitRun(t));
      Regroup([], [], t[..DigitRun(t)], t[DigitRun(t)..]);
    }
  }

  lemma SplitAt(s: string, i: nat)
    requires i <= |s|
    ensures s == s[..i] + s[i..]
    ensures i < |s| ==> s[i..] == [s[i]] + s[i + 1..]
  {
  }

  lemma ExponentTextOf(t: string)
    requires ExponentPart(t).Some?
    ensures var e := ExponentPart(t).value;
      && (e.Some? ==> IsMarker(e.value.marker) && OptionalSign(e.value.sign) && |e.value.digits| > 0 && AllDigits(e.value.digits))
      && t == ExponentText(e)
  {
    if t != [] {
      var (sg, r) := SignPart(t[1..]);
      assert t == [t[0]] + OptText(sg) + r;
    }
  }

  // ---------------------------------------------------------------- every numeral is read back

  lemma {:induction false} SignPartOf(sign: Option<char>, rest: string)
    requires OptionalSign(sign) && (rest == [] || !IsSign(rest[0]))
    ensures SignPart(OptText(sign) + rest) == (sign, rest)
  {
    if sign.Some? {
      assert (OptText(sign) + rest)[1..] == rest;
    } else {
      assert OptText(sign) + rest == rest;
    }
  }

  lemma {:induction false} MantissaPartOf(lead: string, sep: Option<char>, digits: string, rest: string)
    requires AllDigits(lead) && |digits| > 0 && AllDigits(digits)
    requires if sep.Some? then IsSeparator(sep.value) else lead == []
    requires rest == [] || (!IsDigit(rest[0]) && !IsSeparator(rest[0]))
    ensures MantissaPart(lead + OptText(sep) + digits + rest) == Some((lead, sep, digits, rest))
  {
    if sep.Some? {
      SeparatedMantissaOf(lead, sep.value, digits, rest);
    } else {
      var t := lead + OptText(sep) + digits + rest;
      assert t == digits + rest;
      DigitRunOf(digits, rest);
      assert t[..|digits|] == digits && t[|digits|..] == rest;
    }
  }

  lemma {:induction false} SeparatedMantissaOf(lead: string, sep: char, digits: string, rest: string)
    requires AllDigits(lead) && |digits| > 0 && AllDigits(digits) && IsSeparator(sep)
    requires rest == [] || !IsDigit(rest[0])
    ensures MantissaPart(lead + [sep] + digits + rest) == Some((lead, Some(sep), digits, rest))
  {
    var after := digits + rest;
    var t := lead + ([sep] + after);
    DigitRunOf(lead, [sep] + after);
    assert t[|lead|] == sep;
    assert t[..|lead|] == lead;
    assert t[|lead| + 1..] == after;
    DigitRunOf(digits, rest);
    assert after[..|digits|] == digits && after[|digits|..] == rest;
    assert MantissaPart(t) == Some((lead, Some(sep), digits, rest));
    Regroup(lead, [sep], digits, rest);
  }

  lemma Regroup(a: string, b: string, c: string, d: string)
    ensures a + b + c + d == a + (b + (c + d))
  {
  }

  lemma {:induction false} ExponentPartOf(e: Option<Exponent>)
    requires e.Some? ==> IsMarker(e.value.marker) && OptionalSign(e.value.sign) && |e.value.digits| > 0 && AllDigits(e.value.digits)
    ensures ExponentPart(ExponentText(e)) == Some(e)
  {
    if e.Some? {
      var t := ExponentText(e);
      assert t[1..] == OptText(e.value.sign) + e.value.digits;
      SignPartOf(e.value.sign, e.value.digits);
      DigitRunOf(e.value.digits, []);
      assert e.value.digits + [] == e.value.digits;
    }
  }

  /** Reading the written form of any well-formed numeral gives that numeral back. */
  lemma {:induction false} DecomposeText(n: Numeral)
    requires WellFormed(n)
    ensures Decompose(Written(n)) == Some(n)
  {
    var e := ExponentText(n.exponent);
    var mantissa := n.lead + OptText(n.separator) + n.digits;
    var t := Written(n);
    var r1 := mantissa + e;
    assert t == OptText(n.sign) + r1;
    assert r1[0] != '+' && r1[0] != '-' by {
      if n.separator.Some? && |n.lead| == 0 {
        assert r1[0] == n.separator.value;
      } else if n.separator.Some? {
        assert r1[0] == n.lead[0];
      } else {
        assert r1[0] == n.digits[0];
      }
    }
    SignPartOf(n.sign, r1);
    assert e == [] || (!IsDigit(e[0]) && !IsSeparator(e[0]));
    MantissaPartOf(n.lead, n.separator, n.digits, e);
    ExponentPartOf(n.exponent);
  }

  // ---------------------------------------------------------------- value

  function Signum(c: Option<char>): real
  {
    if c == Some('-') then -1.0 else 1.0
  }

  /** `float(text.replace(',', '.'))`, exactly: the sign, the mantissa (integer and fractional
      digits) and the power of ten of the exponent. */
  function Value(n: Numeral): real
    requires WellFormed(n)
  {
    var mantissa := if n.separator.Some? then DecimalValue(n.lead, n.digits) else DigitsValue(n.digits) as real;
    var magnitude := if n.exponent.Some? then DigitsValue(n.exponent.value.digits) else 0;
    var exponent := if n.exponent.Some? && n.exponent.value.sign == Some('-') then -magnitude else magnitude;
    Signum(n.sign) * mantissa * Pow10(exponent)
  }

  /** `NumericParser.parse`: a value exactly when the text (before any final newline) is the
      written form of some numeral, and then that numeral's value. */
  function Parse(s: string): (r: Option<real>)
    ensures r.Some? <==> exists n :: WellFormed(n) && Written(n) == BeforeFinalNewline(s)
    ensures forall n :: WellFormed(n) && Written(n) == BeforeFinalNewline(s) ==> r == Some(Value(n))
  {
    WrittenDecomposes(BeforeFinalNewline(s));
    match Decompose(BeforeFinalNewline(s))
    case None => None
    case Some(n) => Some(Value(n))
  }

  /** A text written by a numeral is read as that numeral. */
  lemma WrittenDecomposes(t: string)
    ensures forall n :: WellFormed(n) && Written(n) == t ==> Decompose(t) == Some(n)
  {
    forall n | WellFormed(n) && Written(n) == t
      ensures Decompose(t) == Some(n)
    {
      DecomposeText(n);
    }
  }

  /** Every numeral is parsed to its value. */
  lemma ParseNumeral(n: Numeral)
    requires WellFormed(n)
    ensures Parse(Written(n)) == Some(Value(n))
  {
    var t := Written(n);
    assert t[|t| - 1] != '\n' by {
      if n.exponent.Some? {
        assert t[|t| - 1] == n.exponent.value.digits[|n.exponent.value.digits| - 1];
      } else {
        assert t[|t| - 1] == n.digits[|n.digits| - 1];
      }
    }
    DecomposeText(n);
  }

  /** Grouped thousands are not a number: after a separator and its digits, a second separator
      ends the match. */
  lemma {:induction false} SecondSeparatorRejected(lead: string, s1: char, digits: string, s2: char, rest: string)
    requires AllDigits(lead) && IsSeparator(s1) && |digits| > 0 && AllDigits(digits) && IsSeparator(s2)
    ensures Decompose(lead + [s1] + digits + ([s2] + rest)) == None
  {
    var t := lead + [s1] + digits + ([s2] + rest);
    SeparatedMantissaOf(lead, s1, digits, [s2] + rest);
    assert t[0] == if |lead| > 0 then lead[0] else s1;
    assert SignPart(t) == (None, t);
    assert ExponentPart([s2] + rest) == None;
  }

  lemma ThousandsSeparatorsRejected()
    ensures Parse("1,234,567") == None
  {
    assert "1,234,567" == "1" + [','] + "234" + ([','] + "567");
    SecondSeparatorRejected("1", ',', "234", ',', "567");
  }

  /** A decimal comma is read as a decimal point. */
  lemma DecimalCommaAccepted()
    ensures Parse("1,5") == Some(1.5)
  {
    var t := "1,5";
    assert SignPart(t) == (None, t);
    assert t == "1" + ",5";
    DigitRunOf("1", ",5");
    assert t[2..] == "5" + "";
    DigitRunOf("5", "");
    assert MantissaPart(t) == Some(("1", Some(','), "5", ""));
    assert Decompose(t) == Some(Numeral(None, "1", Some(','), "5", None));
    assert Pow10(1) == 10.0 * Pow10(0);
    assert DigitsValue("1") == 1 && DigitsValue("5") == 5 by {
      assert "1"[..0] == [] && "5"[..0] == [];
    }
  }
}
