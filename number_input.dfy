/**
 * The numeric text field's parser and clamp. parseInput trims the text,
 * drops every comma, and accepts `-?\d*\.?\d+`, optional whitespace, and an
 * optional case-insensitive k/m/b multiplier; everything else is rejected.
 * Here the accepted texts are exactly the renderings of well-formed tokens.
 */
module NumberInput {
  import opened Types
  import opened Seqs

  /** The suffix multipliers, keyed by lower-case letter. */
  const SUFFIXES: map<char, real> := map['k' := 1000.0, 'm' := 1000000.0, 'b' := 1000000000.0]

  /**
   * The characters String.prototype.trim removes and `\s` matches: tab, line
   * feed, vertical tab, form feed, carriage return, space, no-break space,
   * the Ogham space mark, the spaces U+2000 to U+200A, the line and paragraph
   * separators, the narrow no-break space, the medium mathematical space, the
   * ideographic space and the byte order mark.
   */
  predicate IsSpace(c: char) {
    || ('\t' <= c <= '\r')
    || c == ' ' || c == '\U{00A0}' || c == '\U{1680}'
    || ('\U{2000}' <= c <= '\U{200A}')
    || c == '\U{2028}' || c == '\U{2029}' || c == '\U{202F}' || c == '\U{205F}'
    || c == '\U{3000}' || c == '\U{FEFF}'
  }

  predicate AllSpaces(s: string) {
    forall i | 0 <= i < |s| :: IsSpace(s[i])
  }

  /** `\d` without the unicode flag: the ASCII digits only. */
  predicate IsDigit(c: char) {
    '0' <= c <= '9'
  }

  predicate AllDigits(s: string) {
    forall i | 0 <= i < |s| :: IsDigit(s[i])
  }

  predicate IsSuffixLetter(c: char) {
    c == 'k' || c == 'm' || c == 'b' || c == 'K' || c == 'M' || c == 'B'
  }

  predicate NotComma(c: char) {
    c != ','
  }

  /** The number of white-space characters s starts with. */
  function LeadingSpaces(s: string): (n: nat)
    ensures n <= |s|
    ensures forall i | 0 <= i < n :: IsSpace(s[i])
    ensures n < |s| ==> !IsSpace(s[n])
  {
    if |s| > 0 && IsSpace(s[0]) then 1 + LeadingSpaces(s[1..]) else 0
  }

  /** The number of white-space characters s ends with. */
  function TrailingSpaces(s: string): (n: nat)
    ensures n <= |s|
    ensures forall i | |s| - n <= i < |s| :: IsSpace(s[i])
    ensures n < |s| ==> !IsSpace(s[|s| - n - 1])
  {
    if |s| > 0 && IsSpace(s[|s| - 1]) then 1 + TrailingSpaces(s[..|s| - 1]) else 0
  }

  /** Leading white space removed: what is left is a suffix of s that does not start with white space. */
  function TrimStart(s: string): (r: string)
    ensures |r| <= |s| && r == s[|s| - |r|..]
    ensures AllSpaces(s[..|s| - |r|])
    ensures r == [] || !IsSpace(r[0])
  {
    s[LeadingSpaces(s)..]
  }

  /** Trailing white space removed: what is left is a prefix of s that does not end in white space. */
  function TrimEnd(s: string): (r: string)
    ensures |r| <= |s| && r == s[..|r|]
    ensures AllSpaces(s[|r|..])
    ensures r == [] || !IsSpace(r[|r| - 1])
  {
    s[..|s| - TrailingSpaces(s)]
  }

  function Trim(s: string): string {
    TrimEnd(TrimStart(s))
  }

  /** The index of the first c in s, or |s| when there is none. */
  function IndexOf(s: string, c: char): (i: nat)
    ensures i <= |s| && (i < |s| ==> s[i] == c)
    ensures forall j | 0 <= j < i :: s[j] != c
  {
    if s == [] || s[0] == c then 0 else 1 + IndexOf(s[1..], c)
  }

  /** The `-?\d*\.?\d+` part: a sign, the digits before the point, and the digits after it when there is a point. */
  datatype Numeral = Numeral(negative: bool, whole: string, fraction: Option<string>)

  predicate WellFormedNumeral(n: Numeral) {
    && AllDigits(n.whole)
    && (n.fraction.None? ==> |n.whole| > 0)
    && (n.fraction.Some? ==> AllDigits(n.fraction.value) && |n.fraction.value| > 0)
  }

  function RenderNumeral(n: Numeral): string {
    (if n.negative then "-" else "") + UnsignedPart(n)
  }

  /** The rendering of a numeral without its sign. */
  function UnsignedPart(n: Numeral): string {
    n.whole + (if n.fraction.Some? then "." + n.fraction.value else "")
  }

  /** Reads a whole string as a numeral: an optional minus sign, then the unsigned part. */
  function ScanNumeral(s: string): Option<Numeral> {
    if |s| > 0 && s[0] == '-' then ScanUnsigned(true, s[1..]) else ScanUnsigned(false, s)
  }

  /** The unsigned part is either all digits, or digits, a point and at least one digit. */
  function ScanUnsigned(negative: bool, u: string): Option<Numeral> {
    var dot := IndexOf(u, '.');
    if dot == |u| then
      if |u| > 0 && AllDigits(u) then Some(Numeral(negative, u, None)) else None
    else if AllDigits(u[..dot]) && AllDigits(u[dot + 1..]) && dot + 1 < |u| then
      Some(Numeral(negative, u[..dot], Some(u[dot + 1..])))
    else None
  }

  lemma ScanUnsignedSound(negative: bool, u: string)
    ensures ScanUnsigned(negative, u).Some? ==>
              var n := ScanUnsigned(negative, u).value;
              WellFormedNumeral(n) && n.negative == negative
              && u == UnsignedPart(n)
  {
    var dot := IndexOf(u, '.');
    if dot < |u| {
      assert u[dot..] == "." + u[dot + 1..];
      assert u == u[..dot] + u[dot..];
    }
  }

  lemma ScanNumeralSound(s: string)
    ensures ScanNumeral(s).Some? ==> WellFormedNumeral(ScanNumeral(s).value) && RenderNumeral(ScanNumeral(s).value) == s
  {
    if |s| > 0 && s[0] == '-' {
      ScanUnsignedSound(true, s[1..]);
      assert s == "-" + s[1..];
    } else {
      ScanUnsignedSound(false, s);
      assert "" + s == s;
    }
  }

  lemma ScanNumeralComplete(n: Numeral)
    requires WellFormedNumeral(n)
    ensures ScanNumeral(RenderNumeral(n)) == Some(n)
  {
    var u := UnsignedPart(n);
    var r := RenderNumeral(n);
    ScanUnsignedComplete(n);
    if n.negative {
      assert r[0] == '-' && r[1..] == u;
      assert ScanNumeral(r) == ScanUnsigned(true, u);
    } else {
      assert r == u;
      assert ScanNumeral(r) == ScanUnsigned(false, u);
    }
  }

  lemma ScanUnsignedComplete(n: Numeral)
    requires WellFormedNumeral(n)
    ensures var u := UnsignedPart(n);
            |u| > 0 && u[0] != '-' && ScanUnsigned(n.negative, u) == Some(n)
  {
    var u := UnsignedPart(n);
    if n.fraction.Some? {
      var f := n.fraction.value;
      assert u == n.whole + ("." + f);
      assert u[|n.whole|] == '.';
      assert IndexOf(u, '.') == |n.whole|;
      assert u[..|n.whole|] == n.whole;
      assert u[|n.whole| + 1..] == f;
    } else {
      assert u == n.whole;
      assert IndexOf(u, '.') == |u|;
    }
  }

  /** A whole accepted text: numeral, the white space the pattern allows before the suffix, and the suffix letter if any. */
  datatype Token = Token(numeral: Numeral, gap: string, suffix: Option<char>)

  predicate ValidToken(t: Token) {
    WellFormedNumeral(t.numeral) && AllSpaces(t.gap) && (t.suffix.Some? ==> IsSuffixLetter(t.suffix.value))
  }

  function RenderToken(t: Token): string {
    RenderNumeral(t.numeral) + t.gap + SuffixText(t.suffix)
  }

  /** The suffix letter a text ends with, if it ends with one. */
  function SuffixOf(text: string): (suffix: Option<char>)
    ensures suffix.Some? ==> |text| > 0 && suffix.value == text[|text| - 1] && IsSuffixLetter(suffix.value)
    ensures suffix.None? ==> |text| == 0 || !IsSuffixLetter(text[|text| - 1])
  {
    if |text| > 0 && IsSuffixLetter(text[|text| - 1]) then Some(text[|text| - 1]) else None
  }

  function SuffixText(suffix: Option<char>): string {
    if suffix.Some? then [suffix.value] else []
  }

  /** The text before the suffix letter. */
  function BeforeSuffix(text: string): (body: string)
    ensures body + SuffixText(SuffixOf(text)) == text
  {
    if SuffixOf(text).Some? then
      assert text == text[..|text| - 1] + [text[|text| - 1]];
      text[..|text| - 1]
    else text
  }

  /** Matches the pattern against a comma-free, trimmed text: peel off a suffix letter, then the white space before it, then read the numeral. */
  function MatchToken(text: string): Option<Token> {
    var body := BeforeSuffix(text);
    var digits := TrimEnd(body);
    var numeral := ScanNumeral(digits);
    if numeral.None? then None
    else Some(Token(numeral.value, body[|digits|..], SuffixOf(text)))
  }

  /** Every match decomposes the text into a valid token. */
  lemma MatchTokenSound(text: string)
    ensures MatchToken(text).Some? ==> ValidToken(MatchToken(text).value) && RenderToken(MatchToken(text).value) == text
  {
    var body := BeforeSuffix(text);
    var digits := TrimEnd(body);
    var gap := body[|digits|..];
    ScanNumeralSound(digits);
    if ScanNumeral(digits).Some? {
      var n := ScanNumeral(digits).value;
      var t := Token(n, gap, SuffixOf(text));
      assert MatchToken(text) == Some(t);
      assert body == digits + gap;
      assert RenderToken(t) == RenderNumeral(n) + gap + SuffixText(SuffixOf(text));
    }
  }

  /** Every valid token's rendering is matched, and matched back to that token. */
  lemma MatchTokenComplete(t: Token)
    requires ValidToken(t)
    ensures MatchToken(RenderToken(t)) == Some(t)
  {
    var r := RenderNumeral(t.numeral);
    var text := RenderToken(t);
    var body := r + t.gap;
    NumeralEndsInDigit(t.numeral);
    SuffixSplit(t);
    TrimEndDropsGap(r, t.gap);
    assert body[|r|..] == t.gap;
    ScanNumeralComplete(t.numeral);
  }

  /** A well-formed numeral renders to a text whose last character is a digit. */
  lemma NumeralEndsInDigit(n: Numeral)
    requires WellFormedNumeral(n)
    ensures |RenderNumeral(n)| > 0 && IsDigit(RenderNumeral(n)[|RenderNumeral(n)| - 1])
  {
    var r := RenderNumeral(n);
    if n.fraction.Some? {
      var f := n.fraction.value;
      assert r[|r| - 1] == f[|f| - 1];
    } else {
      assert r[|r| - 1] == n.whole[|n.whole| - 1];
    }
  }

  /** A rendered token's suffix is read back, and before it come the numeral and the gap. */
  lemma SuffixSplit(t: Token)
    requires ValidToken(t)
    requires |RenderNumeral(t.numeral)| > 0 && IsDigit(RenderNumeral(t.numeral)[|RenderNumeral(t.numeral)| - 1])
    ensures SuffixOf(RenderToken(t)) == t.suffix
    ensures BeforeSuffix(RenderToken(t)) == RenderNumeral(t.numeral) + t.gap
  {
    var r := RenderNumeral(t.numeral);
    var text := RenderToken(t);
    if t.suffix.Some? {
      assert text == (r + t.gap) + [t.suffix.value];
    } else {
      assert text == r + t.gap;
      if |t.gap| > 0 {
        assert text[|text| - 1] == t.gap[|t.gap| - 1];
        assert IsSpace(t.gap[|t.gap| - 1]);
      } else {
        assert text[|text| - 1] == r[|r| - 1];
      }
    }
  }

  lemma {:induction false} TrimEndDropsGap(r: string, gap: string)
    requires |r| > 0 && IsDigit(r[|r| - 1]) && AllSpaces(gap)
    ensures TrimEnd(r + gap) == r
    decreases |gap|
  {
    if gap == [] {
      assert r + gap == r;
    } else {
      assert (r + gap)[..|r + gap| - 1] == r + gap[..|gap| - 1];
      TrimEndDropsGap(r, gap[..|gap| - 1]);
    }
  }

  function Pow10(n: nat): (p: nat)
    ensures p >= 1
  {
    if n == 0 then 1 else 10 * Pow10(n - 1)
  }

  /** The value of a digit string read in base ten. */
  function DigitsValue(d: string): nat
    requires AllDigits(d)
  {
    if d == [] then 0 else 10 * DigitsValue(d[..|d| - 1]) + (d[|d| - 1] as int - '0' as int)
  }

  /** parseFloat of a well-formed numeral, as an exact decimal. */
  function NumeralValue(n: Numeral): real
    requires WellFormedNumeral(n)
  {
    var magnitude := DigitsValue(n.whole) as real
      + (if n.fraction.Some? then DigitsValue(n.fraction.value) as real / Pow10(|n.fraction.value|) as real else 0.0);
    if n.negative then -magnitude else magnitude
  }

  function Lower(c: char): char {
    if c == 'K' then 'k' else if c == 'M' then 'm' else if c == 'B' then 'b' else c
  }

  function Multiplier(suffix: Option<char>): (m: real)
    requires suffix.Some? ==> IsSuffixLetter(suffix.value)
    ensures suffix.None? ==> m == 1.0
    ensures suffix.Some? ==> m == SUFFIXES[Lower(suffix.value)]
  {
    if suffix.None? then 1.0 else SUFFIXES[Lower(suffix.value)]
  }

  function TokenValue(t: Token): real
    requires ValidToken(t)
  {
    NumeralValue(t.numeral) * Multiplier(t.suffix)
  }

  /** The text parseInput matches: trimmed first, then every comma removed. */
  function Cleaned(raw: string): string {
    Filter(Trim(raw), NotComma)
  }

  /**
   * parseInput: null for an empty text, a lone minus sign, or a text the
   * pattern rejects. An accepted text, cleaned, is the rendering of a valid
   * token, and the value is that token's.
   */
  function ParseInput(raw: string): (value: Option<real>)
    ensures value.Some? ==>
              exists t :: ValidToken(t) && RenderToken(t) == Cleaned(raw) && value.value == TokenValue(t)
  {
    var cleaned := Cleaned(raw);
    if cleaned == "" || cleaned == "-" then None
    else
      match MatchToken(cleaned)
      case None => None
      case Some(t) =>
        MatchTokenSound(cleaned);
        assert ValidToken(t) && RenderToken(t) == cleaned;
        Some(TokenValue(t))
  }

  /** A valid token renders to neither "" nor "-", the two texts rejected up front. */
  lemma RenderTokenNotBare(t: Token)
    requires ValidToken(t)
    ensures RenderToken(t) != "" && RenderToken(t) != "-"
  {
    var n := t.numeral;
    var r := RenderNumeral(n);
    assert RenderToken(t)[..|r|] == r;
    if n.negative {
      assert |r| >= 2;
    } else if |n.whole| > 0 {
      assert r[0] == n.whole[0];
    } else {
      assert r[0] == '.';
    }
  }

  /** parseInput rejects a text only when no valid token renders its cleaned form. */
  lemma ParseInputComplete(raw: string, t: Token)
    requires ValidToken(t) && RenderToken(t) == Cleaned(raw)
    ensures ParseInput(raw) == Some(TokenValue(t))
  {
    RenderTokenNotBare(t);
    MatchTokenComplete(t);
  }

  lemma TrimKeeps(s: string)
    requires |s| > 0 && !IsSpace(s[0]) && !IsSpace(s[|s| - 1])
    ensures Trim(s) == s
  {
    assert TrimStart(s) == s;
  }

  lemma NoCommaIn(s: string)
    requires ',' !in s
    ensures Filter(s, NotComma) == s
  {
    FilterKeepsAll(s, NotComma);
  }

  lemma NoCommaInDigits(d: string)
    requires AllDigits(d)
    ensures ',' !in d
  {
    forall i | 0 <= i < |d| ensures d[i] != ',' {
      assert IsDigit(d[i]);
    }
  }

  lemma NoCommaInToken(t: Token)
    requires ValidToken(t)
    ensures ',' !in RenderToken(t)
  {
    var n := t.numeral;
    NoCommaInDigits(n.whole);
    if n.fraction.Some? {
      NoCommaInDigits(n.fraction.value);
    }
    assert ',' !in t.gap by {
      forall i | 0 <= i < |t.gap| ensures t.gap[i] != ',' {
        assert IsSpace(t.gap[i]);
      }
    }
    assert ',' !in RenderNumeral(n);
  }

  /** A valid token typed as is, with no white space after it, parses to its value. */
  lemma ParseInputAccepts(t: Token)
    requires ValidToken(t) && (t.suffix.Some? || t.gap == [])
    ensures ParseInput(RenderToken(t)) == Some(TokenValue(t))
  {
    var text := RenderToken(t);
    TokenEdges(t);
    TrimKeeps(text);
    NoCommaInToken(t);
    NoCommaIn(text);
    ParseInputComplete(text, t);
  }

  /** A valid token with nothing after its gap starts and ends with a character that is not white space. */
  lemma TokenEdges(t: Token)
    requires ValidToken(t) && (t.suffix.Some? || t.gap == [])
    ensures var text := RenderToken(t);
            |text| > 0 && !IsSpace(text[0]) && !IsSpace(text[|text| - 1])
  {
    var text := RenderToken(t);
    var r := RenderNumeral(t.numeral);
    NumeralStartsNonSpace(t.numeral);
    assert text[0] == r[0];
    if t.suffix.None? {
      NumeralEndsInDigit(t.numeral);
      assert text == r;
    }
  }

  lemma NumeralStartsNonSpace(n: Numeral)
    requires WellFormedNumeral(n)
    ensures |RenderNumeral(n)| > 0 && !IsSpace(RenderNumeral(n)[0])
  {
    var r := RenderNumeral(n);
    NumeralEndsInDigit(n);
    if !n.negative {
      var u := UnsignedPart(n);
      assert r == u;
      if |n.whole| > 0 {
        assert u[0] == n.whole[0];
      } else {
        assert u[0] == '.';
      }
    }
  }

  /** clamp: Math.min(max ?? Infinity, Math.max(min ?? -Infinity, v)). */
  function Clamp(v: real, min: Option<real>, max: Option<real>): (r: real)
    ensures max.Some? ==> r <= max.value
    ensures min.Some? && (max.None? || min.value <= max.value) ==> min.value <= r
    ensures (min.None? || min.value <= v) && (max.None? || v <= max.value) ==> r == v
    ensures min.Some? && max.Some? && min.value > max.value ==> r == max.value
    ensures r == v || (min.Some? && r == min.value) || (max.Some? && r == max.value)
  {
    var atLeastMin := if min.Some? && min.value > v then min.value else v;
    if max.Some? && max.value < atLeastMin then max.value else atLeastMin
  }

  /** Clamping twice is clamping once. */
  lemma ClampIdempotent(v: real, min: Option<real>, max: Option<real>)
    ensures Clamp(Clamp(v, min, max), min, max) == Clamp(v, min, max)
  {
  }

  /** A number ending in a bare point, such as "1.", is rejected: the pattern needs a digit after the point. */
  lemma TrailingPointRejected(w: string)
    requires |w| > 0 && AllDigits(w)
    ensures ParseInput(w + ".") == None
  {
    var s := w + ".";
    TrailingPointClean(w);
    TrailingPointNoMatch(w);
  }

  lemma TrailingPointClean(w: string)
    requires |w| > 0 && AllDigits(w)
    ensures Cleaned(w + ".") == w + "."
  {
    var s := w + ".";
    assert s[0] == w[0];
    TrimKeeps(s);
    NoCommaInDigits(w);
    NoCommaIn(s);
  }

  lemma TrailingPointNoMatch(w: string)
    requires |w| > 0 && AllDigits(w)
    ensures MatchToken(w + ".") == None
  {
    var s := w + ".";
    assert SuffixOf(s) == None && BeforeSuffix(s) == s;
    assert TrailingSpaces(s) == 0;
    assert TrimEnd(s) == s;
    assert s[0] == w[0] && s[0] != '-';
    assert ScanNumeral(s) == ScanUnsigned(false, s);
    assert forall j | 0 <= j < |w| :: s[j] == w[j];
    assert IndexOf(s, '.') == |w|;
  }

  /** A comma between two digit groups, as in "1,000", is dropped: the text reads as the digits joined. */
  lemma ThousandsSeparatorIgnored(a: string, b: string)
    requires |a| > 0 && AllDigits(a) && |b| > 0 && AllDigits(b)
    ensures ParseInput(a + "," + b) == Some(DigitsValue(a + b) as real)
  {
    var t := Token(Numeral(false, a + b, None), "", None);
    DigitGroupsToken(a, b, t);
    ThousandsSeparatorCleaned(a, b);
    ParseInputComplete(a + "," + b, t);
  }

  /** The token for the joined digits of two groups: valid, rendered as the digits, worth their value. */
  lemma DigitGroupsToken(a: string, b: string, t: Token)
    requires |a| > 0 && AllDigits(a) && AllDigits(b)
    requires t == Token(Numeral(false, a + b, None), "", None)
    ensures ValidToken(t) && RenderToken(t) == a + b && TokenValue(t) == DigitsValue(a + b) as real
  {
    var d := a + b;
    assert AllDigits(d) by {
      forall i | 0 <= i < |d| ensures IsDigit(d[i]) {
        if i < |a| { assert d[i] == a[i]; } else { assert d[i] == b[i - |a|]; }
      }
    }
    assert RenderNumeral(t.numeral) == d;
  }

  lemma ThousandsSeparatorCleaned(a: string, b: string)
    requires |a| > 0 && AllDigits(a) && |b| > 0 && AllDigits(b)
    ensures Cleaned(a + "," + b) == a + b
  {
    var s := a + "," + b;
    assert s[0] == a[0] && s[|s| - 1] == b[|b| - 1];
    TrimKeeps(s);
    NoCommaInDigits(a);
    NoCommaInDigits(b);
    FilterAppend(a + ",", b, NotComma);
    FilterAppend(a, ",", NotComma);
    NoCommaIn(a);
    NoCommaIn(b);
    assert Filter(",", NotComma) == [] by {
      assert ","[..0] == [];
    }
  }

  /** "2.5k" is 2500: the suffix multiplies the number. */
  lemma ThousandsSuffix()
    ensures ParseInput("2.5k") == Some(2500.0)
  {
    var t := Token(Numeral(false, "2", Some("5")), "", Some('k'));
    assert RenderToken(t) == "2.5k";
    ParseInputAccepts(t);
    ThousandsSuffixValue(t);
  }

  lemma ThousandsSuffixValue(t: Token)
    requires t == Token(Numeral(false, "2", Some("5")), "", Some('k'))
    ensures ValidToken(t) && TokenValue(t) == 2500.0
  {
    assert NumeralValue(t.numeral) == 2.5;
  }

  /** "-3 M" is minus three million: the suffix is case-insensitive and may follow white space. */
  lemma MillionsSuffix()
    ensures ParseInput("-3 M") == Some(-3000000.0)
  {
    var n := Numeral(true, "3", None);
    var t := Token(n, " ", Some('M'));
    assert WellFormedNumeral(n);
    assert ValidToken(t);
    assert RenderToken(t) == "-3 M";
    ParseInputAccepts(t);
    assert NumeralValue(n) == -3.0;
    assert Multiplier(Some('M')) == 1000000.0;
  }
}
