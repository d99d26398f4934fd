/**
 The `Type` label of a macro row: the whitespace trimming done by the cleaner
 (`str.strip()`), the lower-casing done by the partition (`str.lower()`), and
 the closed set of segments a label can name.
 */
module Labels {

  /** The characters Python's `str.strip()` with no argument removes. */
  predicate IsSpace(c: char) {
    || c == ' ' || c == '\t' || c == '\n' || c == '\r' || c == '\U{B}' || c == '\U{C}'
    || ('\U{1C}' <= c <= '\U{1F}')
    || c == '\U{85}' || c == '\U{A0}' || c == '\U{1680}'
    || ('\U{2000}' <= c <= '\U{200A}')
    || c == '\U{2028}' || c == '\U{2029}' || c == '\U{202F}' || c == '\U{205F}' || c == '\U{3000}'
  }

  predicate AllSpace(s: string) {
    forall i :: 0 <= i < |s| ==> IsSpace(s[i])
  }

  /** `s` neither begins nor ends with whitespace. */
  predicate Unpadded(s: string) {
    s == [] || (!IsSpace(s[0]) && !IsSpace(s[|s| - 1]))
  }

  /** `s` without its leading whitespace. */
  function TrimStart(s: string): (r: string)
    ensures |r| <= |s|
  {
    if s != [] && IsSpace(s[0]) then TrimStart(s[1..]) else s
  }

  /** `s` without its trailing whitespace. */
  function TrimEnd(s: string): (r: string)
    ensures |r| <= |s|
  {
    if s != [] && IsSpace(s[|s| - 1]) then TrimEnd(s[..|s| - 1]) else s
  }

  /**
   Trimming the start removes exactly the leading whitespace: what is left is
   a suffix of `s` that does not begin with whitespace, and all that was cut
   off is whitespace.
   */
  lemma {:induction false} TrimStartRemovesLeadingSpace(s: string)
    ensures TrimStart(s) == s[|s| - |TrimStart(s)|..]
    ensures AllSpace(s[..|s| - |TrimStart(s)|])
    ensures TrimStart(s) != [] ==> !IsSpace(TrimStart(s)[0])
  {
    if s != [] && IsSpace(s[0]) {
      TrimStartRemovesLeadingSpace(s[1..]);
      var k := |s| - |TrimStart(s)|;
      assert s[..k] == [s[0]] + s[1..][..k - 1];
    }
  }

  /**
   Trimming the end removes exactly the trailing whitespace: what is left is
   a prefix of `s` that does not end with whitespace, and all that was cut
   off is whitespace.
   */
  lemma {:induction false} TrimEndRemovesTrailingSpace(s: string)
    ensures TrimEnd(s) == s[..|TrimEnd(s)|]
    ensures AllSpace(s[|TrimEnd(s)|..])
    ensures TrimEnd(s) != [] ==> !IsSpace(TrimEnd(s)[|TrimEnd(s)| - 1])
  {
    if s != [] && IsSpace(s[|s| - 1]) {
      var t := s[..|s| - 1];
      TrimEndRemovesTrailingSpace(t);
      var k := |TrimEnd(s)|;
      assert s[k..] == t[k..] + [s[|s| - 1]];
    }
  }

  /** `str.strip()`: `s` without surrounding whitespace. */
  function Strip(s: string): (r: string)
    ensures Unpadded(r)
    ensures |r| <= |s|
  {
    TrimStartRemovesLeadingSpace(s);
    TrimEndRemovesTrailingSpace(TrimStart(s));
    var r := TrimEnd(TrimStart(s));
    assert r != [] ==> r[0] == TrimStart(s)[0];
    r
  }

  /** Stripping removes exactly the whitespace around an unpadded text. */
  lemma {:induction false} StripPadding(p: string, t: string, q: string)
    requires AllSpace(p) && AllSpace(q) && Unpadded(t)
    ensures Strip(p + t + q) == t
  {
    if t == [] {
      assert p + t + q == (p + q) + [];
      TrimStartPadding(p + q, []);
    } else {
      assert p + t + q == p + (t + q);
      TrimStartPadding(p, t + q);
      TrimEndPadding(t, q);
    }
  }

  lemma {:induction false} TrimStartPadding(p: string, u: string)
    requires AllSpace(p) && (u == [] || !IsSpace(u[0]))
    ensures TrimStart(p + u) == u
  {
    if p != [] {
      assert (p + u)[1..] == p[1..] + u;
      TrimStartPadding(p[1..], u);
    }
  }

  lemma {:induction false} TrimEndPadding(t: string, q: string)
    requires AllSpace(q) && (t == [] || !IsSpace(t[|t| - 1]))
    ensures TrimEnd(t + q) == t
  {
    if q != [] {
      assert (t + q)[..|t + q| - 1] == t + q[..|q| - 1];
      TrimEndPadding(t, q[..|q| - 1]);
    } else {
      assert t + q == t;
    }
  }

  /** Every string is its stripped text with whitespace on either side. */
  lemma StripSplits(s: string)
    ensures exists p, q :: AllSpace(p) && AllSpace(q) && s == p + Strip(s) + q
  {
    var u := TrimStart(s);
    var r := TrimEnd(u);
    TrimStartRemovesLeadingSpace(s);
    TrimEndRemovesTrailingSpace(u);
    var p, q := s[..|s| - |u|], u[|r|..];
    ThreeParts(s, u, r);
    assert AllSpace(p) && AllSpace(q) && s == p + Strip(s) + q;
  }

  lemma ThreeParts(s: string, u: string, r: string)
    requires |u| <= |s| && u == s[|s| - |u|..]
    requires |r| <= |u| && r == u[..|r|]
    ensures s == s[..|s| - |u|] + r + u[|r|..]
  {
    assert s == s[..|s| - |u|] + u;
    assert u == r + u[|r|..];
  }

  /** A text without surrounding whitespace is left as it is. */
  lemma StripUnpadded(t: string)
    requires Unpadded(t)
    ensures Strip(t) == t
  {
    StripPadding([], t, []);
    assert [] + t + [] == t;
  }

  /** Stripping twice is stripping once. */
  lemma StripIdempotent(s: string)
    ensures Strip(Strip(s)) == Strip(s)
  {
    StripUnpadded(Strip(s));
  }

  /** `str.lower()` on one character, for the ASCII letters. */
  function LowerChar(c: char): char {
    if 'A' <= c <= 'Z' then (c as int - 'A' as int + 'a' as int) as char else c
  }

  /** `str.lower()`, for the ASCII letters. */
  function Lower(s: string): string {
    seq(|s|, i requires 0 <= i < |s| => LowerChar(s[i]))
  }

  /** The segments a row's label can place it in. */
  datatype Segment = Historical | Forecast | Other

  /** The lower-case spelling the partition compares labels with. */
  function Keyword(g: Segment): string {
    match g
    case Historical => "historical"
    case Forecast => "forecast"
    case Other => ""
  }

  /** Parses a label case-insensitively into its segment. */
  function Classify(text: string): (g: Segment)
  {
    if Lower(text) == Keyword(Historical) then Historical
    else if Lower(text) == Keyword(Forecast) then Forecast
    else Other
  }

  /**
   `text` spells the word given in `lower` and `upper` case, each letter in
   either case.
   */
  predicate SpelledCaseless(text: string, lower: string, upper: string) {
    && |text| == |lower| == |upper|
    && forall i :: 0 <= i < |text| ==> text[i] == lower[i] || text[i] == upper[i]
  }

  /**
   For a word of lower-case ASCII letters, comparing the lower-cased text
   with it accepts exactly the spellings with each letter in either case.
   */
  lemma LowerMatchesCaseless(text: string, lower: string, upper: string)
    requires |lower| == |upper|
    requires forall i :: 0 <= i < |lower| ==> 'a' <= lower[i] <= 'z' && upper[i] as int == lower[i] as int - 32
    ensures Lower(text) == lower <==> SpelledCaseless(text, lower, upper)
  {
    if SpelledCaseless(text, lower, upper) {
      assert forall i :: 0 <= i < |text| ==> Lower(text)[i] == lower[i];
    }
  }

  /**
   A label names Historical exactly when it spells "historical" with each
   letter in either case, Forecast likewise for "forecast", and Other
   otherwise.
   */
  lemma ClassifyMeaning(text: string)
    ensures Classify(text) == Historical <==> SpelledCaseless(text, "historical", "HISTORICAL")
    ensures Classify(text) == Forecast <==> SpelledCaseless(text, "forecast", "FORECAST")
    ensures Classify(text) == Other <==>
      !SpelledCaseless(text, "historical", "HISTORICAL") && !SpelledCaseless(text, "forecast", "FORECAST")
  {
    LowerMatchesCaseless(text, "historical", "HISTORICAL");
    LowerMatchesCaseless(text, "forecast", "FORECAST");
  }

  /**
   After stripping, any case variant of "historical" or "forecast" with any
   whitespace around it is classified into that segment.
   */
  lemma PaddedLabelClassified(p: string, t: string, q: string, g: Segment)
    requires AllSpace(p) && AllSpace(q) && g != Other
    requires Lower(t) == Keyword(g)
    ensures Classify(Strip(p + t + q)) == g
  {
    assert LowerChar(t[0]) == Keyword(g)[0];
    assert LowerChar(t[|t| - 1]) == Keyword(g)[|t| - 1];
    StripPadding(p, t, q);
  }
}
