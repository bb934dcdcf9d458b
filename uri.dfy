/** CURIE-style URIs over a fixed table of six namespace prefixes (wtu/util.py). */
module Uri {
  import opened Common
  import opened Text

  /** The prefix table, in the order `URI.prefix.items()` yields it. */
  const Prefixes: seq<(string, string)> := [
    ("dbpedia", "http://dbpedia.org/page/"),
    ("dbr", "http://dbpedia.org/resource/"),
    ("dbo", "http://dbpedia.org/ontology/"),
    ("rdfs", "http://www.w3.org/2000/01/rdf-schema#"),
    ("xsd", "http://www.w3.org/2001/XMLSchema#"),
    ("dt", "http://dbpedia.org/datatype/")
  ]

  /** Position of `prefix` among the short names of the table. */
  function PrefixIndex(prefix: string): (k: Option<nat>)
    ensures k.Some? ==> k.value < |Prefixes| && Prefixes[k.value].0 == prefix
    ensures k.None? ==> forall i :: 0 <= i < |Prefixes| ==> Prefixes[i].0 != prefix
  {
    if prefix == "dbpedia" then Some(0)
    else if prefix == "dbr" then Some(1)
    else if prefix == "dbo" then Some(2)
    else if prefix == "rdfs" then Some(3)
    else if prefix == "xsd" then Some(4)
    else if prefix == "dt" then Some(5)
    else None
  }

  predicate Known(prefix: string) { PrefixIndex(prefix).Some? }

  /** The namespace IRI a known short prefix stands for. */
  function Iri(prefix: string): string
    requires Known(prefix)
  {
    Prefixes[PrefixIndex(prefix).value].1
  }

  datatype Uri = Uri(prefix: string, suffix: string)

  /** `URI(prefix, suffix)`: an unknown prefix raises, a known one is stored with the suffix unchanged. */
  function Make(prefix: string, suffix: string): (r: Result<Uri>)
    ensures r.Ok? <==> Known(prefix)
    ensures r.Ok? ==> r.value.prefix == prefix && r.value.suffix == suffix
    ensures r.Err? ==> r.error == UnknownPrefix(prefix)
  {
    if Known(prefix) then Ok(Uri(prefix, suffix)) else Err(UnknownPrefix(prefix))
  }

  /** `short()`: "prefix:suffix". */
  function Short(u: Uri): string
  {
    u.prefix + ":" + u.suffix
  }

  /** `long()`: the prefix's IRI followed by the suffix. */
  function Long(u: Uri): string
    requires Known(u.prefix)
  {
    Iri(u.prefix) + u.suffix
  }

  /** `s.replace(pat, '')`: every non-overlapping occurrence of `pat`, found left to right, is removed. */
  function RemoveAll(s: string, pat: string): string
    requires |pat| > 0
    decreases |s|
  {
    if |s| < |pat| then s
    else if s[..|pat|] == pat then RemoveAll(s[|pat|..], pat)
    else [s[0]] + RemoveAll(s[1..], pat)
  }

  /** `pat` occurs somewhere inside `s`. */
  predicate Occurs(s: string, pat: string)
  {
    exists i :: 0 <= i <= |s| && OccursAt(s, pat, i)
  }

  predicate OccursAt(s: string, pat: string, i: nat)
  {
    i + |pat| <= |s| && s[i..i + |pat|] == pat
  }

  /** The first table entry, from `i` on, whose IRI starts `uri` (the early-returning search in `parse`). */
  function FindIri(uri: string, i: nat): (k: Option<nat>)
    requires i <= |Prefixes|
    ensures k.Some? ==> i <= k.value < |Prefixes| && StartsWith(uri, Prefixes[k.value].1)
    ensures k.Some? ==> forall j :: i <= j < k.value ==> !StartsWith(uri, Prefixes[j].1)
    ensures k.None? ==> forall j :: i <= j < |Prefixes| ==> !StartsWith(uri, Prefixes[j].1)
    decreases |Prefixes| - i
  {
    if i == |Prefixes| then None
    else if StartsWith(uri, Prefixes[i].1) then Some(i)
    else FindIri(uri, i + 1)
  }

  /** `URI.parse(uri, fallback_prefix)`. */
  function Parse(uri: string, fallback: Option<string>): (r: Result<Uri>)
    ensures r.Ok? ==> Known(r.value.prefix)
  {
    if StartsWith(uri, "http://") then
      match FindIri(uri, 0)
      case Some(k) => Make(Prefixes[k].0, RemoveAll(uri, Prefixes[k].1))
      case None => Err(UnknownPrefixIn(uri))
    else ParseCurie(uri, fallback)
  }

  /** `':' in uri` and the text before the first ':' is one of the table's short names. */
  predicate HasKnownPrefix(uri: string)
  {
    var k := FirstIndexOf(uri, ':'); k < |uri| && Known(uri[..k])
  }

  /** The `else` branch of `parse`: a known prefix before the first ':', or the fallback. */
  function ParseCurie(uri: string, fallback: Option<string>): (r: Result<Uri>)
    ensures r.Ok? ==> Known(r.value.prefix)
  {
    var k := FirstIndexOf(uri, ':');
    if HasKnownPrefix(uri) then Make(uri[..k], uri[k + 1..])
    else match fallback
      case None => Err(AmbiguousUri(uri))
      case Some(f) => Make(f, uri)
  }

  // ---------------------------------------------------------------- properties

  /** No IRI of the table starts another one, so at most one entry matches any string. */
  lemma IrisPrefixFree(i: nat, j: nat)
    requires i < |Prefixes| && j < |Prefixes| && i != j
    ensures !StartsWith(Prefixes[j].1, Prefixes[i].1)
  {
    var a, b := Prefixes[i].1, Prefixes[j].1;
    var d := if a[7] != b[7] then 7 else if a[7] == 'd' then 19 else 21;
    assert d < |a| && d < |b| && a[d] != b[d];
  }

  lemma RemoveAllAbsent(s: string, pat: string)
    requires |pat| > 0 && !Occurs(s, pat)
    ensures RemoveAll(s, pat) == s
    decreases |s|
  {
    if |s| >= |pat| {
      assert !OccursAt(s, pat, 0);
      assert !Occurs(s[1..], pat) by {
        if Occurs(s[1..], pat) {
          var i :| 0 <= i <= |s[1..]| && OccursAt(s[1..], pat, i);
          assert s[i + 1..i + 1 + |pat|] == s[1..][i..i + |pat|];
          assert OccursAt(s, pat, i + 1);
        }
      }
      RemoveAllAbsent(s[1..], pat);
      assert s == [s[0]] + s[1..];
    }
  }

  /** For a known prefix, parsing the short form gives the URI back (the split is at the first ':'). */
  lemma {:induction false} ParseShortRoundTrip(u: Uri, fallback: Option<string>)
    requires Known(u.prefix)
    ensures Parse(Short(u), fallback) == Ok(u)
  {
    var s := Short(u);
    var p := u.prefix;
    assert s[0] == p[0] && p[0] != 'h';
    assert !StartsWith(s, "http://");
    assert forall i :: 0 <= i < |p| ==> p[i] != ':';
    assert s[|p|] == ':';
    assert Contains(s, ':');
    var k := FirstIndexOf(s, ':');
    assert k == |p|;
    assert s[..k] == p && s[k + 1..] == u.suffix;
  }

  /** A string that starts with a known prefix's IRI is found under that prefix and no other. */
  lemma {:induction false} FindIriOfLong(u: Uri)
    requires Known(u.prefix)
    ensures StartsWith(Long(u), "http://")
    ensures FindIri(Long(u), 0) == PrefixIndex(u.prefix)
  {
    var s, iri := Long(u), Iri(u.prefix);
    var n := PrefixIndex(u.prefix).value;
    assert s[..|iri|] == iri;
    assert iri[..7] == "http://";
    assert StartsWith(s, "http://") by { assert s[..7] == iri[..7]; }
    var k := FindIri(s, 0);
    assert StartsWith(s, Prefixes[n].1);
    assert k.Some? && k.value == n by {
      if k.None? || k.value != n {
        var j := if k.None? then n else k.value;
        if k.Some? {
          var other := Prefixes[j].1;
          assert StartsWith(s, other);
          if |other| <= |iri| {
            assert iri[..|other|] == s[..|other|];
            IrisPrefixFree(j, n);
          } else {
            assert other[..|iri|] == s[..|iri|];
            IrisPrefixFree(n, j);
          }
        }
        assert false;
      }
    }
  }

  lemma RemoveAllLeading(pat: string, s: string)
    requires |pat| > 0
    ensures RemoveAll(pat + s, pat) == RemoveAll(s, pat)
  {
    assert (pat + s)[..|pat|] == pat;
    assert (pat + s)[|pat|..] == s;
  }

  /** Parsing the long form gives the URI back, as long as the suffix does not itself contain the prefix's IRI. */
  lemma {:induction false} ParseLongRoundTrip(u: Uri, fallback: Option<string>)
    requires Known(u.prefix) && !Occurs(u.suffix, Iri(u.prefix))
    ensures Parse(Long(u), fallback) == Ok(u)
  {
    FindIriOfLong(u);
    RemoveAllLeading(Iri(u.prefix), u.suffix);
    RemoveAllAbsent(u.suffix, Iri(u.prefix));
  }

  /** The long round trip does fail when the suffix repeats the IRI: `replace` removes every occurrence. */
  lemma ParseLongDropsRepeatedIri()
    ensures Known("dbr")
    ensures Parse(Long(Uri("dbr", "A" + Iri("dbr"))), None) == Ok(Uri("dbr", "A"))
  {
    var iri := Iri("dbr");
    var u := Uri("dbr", "A" + iri);
    FindIriOfLong(u);
    RemoveAllLeading(iri, "A" + iri);
    var rest := "A" + iri;
    assert rest[..|iri|] != iri by { assert rest[0] != iri[0]; }
    assert rest[1..] == iri + "";
    RemoveAllLeading(iri, "");
    assert RemoveAll(rest, iri) == "A" + RemoveAll(rest[1..], iri);
    assert RemoveAll(rest[1..], iri) == "";
    assert RemoveAll(Long(u), Prefixes[1].1) == "A";
    assert Parse(Long(u), None) == Make(Prefixes[1].0, "A");
  }

  /** An http:// string that starts with none of the six IRIs is rejected with "Unknown prefix". */
  lemma ParseUnknownIri(uri: string, fallback: Option<string>)
    requires StartsWith(uri, "http://")
    requires forall i :: 0 <= i < |Prefixes| ==> !StartsWith(uri, Prefixes[i].1)
    ensures Parse(uri, fallback) == Err(UnknownPrefixIn(uri))
  {
  }

  /** A non-http string whose text before its first ':' is not a known prefix (or that has no ':')
      becomes URI(fallback, whole string) when a fallback is given, and is "Ambiguous" otherwise. */
  lemma ParseFallback(uri: string, fallback: Option<string>)
    requires !StartsWith(uri, "http://")
    requires !HasKnownPrefix(uri)
    ensures fallback.None? ==> Parse(uri, fallback) == Err(AmbiguousUri(uri))
    ensures fallback.Some? ==> Parse(uri, fallback) == Make(fallback.value, uri)
  {
    assert Parse(uri, fallback) == ParseCurie(uri, fallback);
  }
}
