/** Extraction of the product id and the optional variant id from the URL of an order
    line: the leftmost case-insensitive `/product/<digits>` gives the product id, and
    the first case-insensitive `vid=` anywhere in the URL gives the variant id. */
module ProductUrlParser {
  import opened Wrappers
  import opened Text

  /** The exceptions `Parse` throws. */
  datatype ParseError =
    | BlankUrl         // ArgumentException: null, empty or white-space-only URL
    | InvalidFormat    // InvalidOperationException: no `/product/<digits>`
    | ProductIdOverflow  // OverflowException from `int.Parse`: the digits exceed Int32

  datatype ParsedUrl = ParsedUrl(productId: int, variantId: Option<int>)

  const ProductSegment: string := "/product/"
  const VidMarker: string := "vid="
  const Int32Min: int := -0x8000_0000
  const Int32Max: int := 0x7FFF_FFFF

  /** `string.IsNullOrWhiteSpace`. */
  predicate IsBlank(url: Option<string>) {
    url.None? || forall i :: 0 <= i < |url.value| ==> IsWhiteSpace(url.value[i])
  }

  /** The pattern `/product/\d+` (ignoring case) matches at index i. */
  predicate ProductMatchAt(url: string, i: int) {
    MatchAt(url, ProductSegment, i, true) && i + |ProductSegment| < |url| && IsDigit(url[i + |ProductSegment|])
  }

  /** Where the regular expression's leftmost match starts, searching from `from`. */
  function FindProductMatch(url: string, from: nat): (r: Option<nat>)
    ensures r.Some? ==> from <= r.value && ProductMatchAt(url, r.value)
    ensures r.Some? ==> forall j :: from <= j < r.value ==> !ProductMatchAt(url, j)
    ensures r.None? ==> forall j :: from <= j ==> !ProductMatchAt(url, j)
    decreases |url| - from
  {
    if from + |ProductSegment| >= |url| then None
    else if ProductMatchAt(url, from) then Some(from)
    else FindProductMatch(url, from + 1)
  }

  /** The product-id digits of a match at i: the greedy `\d+` after the segment. */
  function ProductDigits(url: string, i: nat): (d: string)
    requires ProductMatchAt(url, i)
    ensures |d| > 0 && AllDigits(d)
    ensures i + |ProductSegment| + |d| <= |url|
    ensures d == url[i + |ProductSegment|..i + |ProductSegment| + |d|]
    ensures i + |ProductSegment| + |d| == |url| || !IsDigit(url[i + |ProductSegment| + |d|])
  {
    var start := i + |ProductSegment|;
    url[start..DigitRunEnd(url, start)]
  }

  /** t is an optional sign followed by at least one decimal digit, and writes v. */
  predicate Denotes(t: string, v: int) {
    (t != [] && AllDigits(t) && v == DigitsValue(t)) ||
    (|t| >= 2 && t[0] == '+' && AllDigits(t[1..]) && v == DigitsValue(t[1..])) ||
    (|t| >= 2 && t[0] == '-' && AllDigits(t[1..]) && v == -(DigitsValue(t[1..]) as int))
  }

  /** `int.TryParse` with the default number style: optional white space, an optional
      sign, at least one digit, optional white space, and a value within Int32. */
  function TryParseInt32(s: string): (r: Option<int>)
    ensures r.Some? ==> Int32Min <= r.value <= Int32Max && Denotes(Trim(s), r.value)
    ensures r.None? ==> forall v :: Int32Min <= v <= Int32Max ==> !Denotes(Trim(s), v)
  {
    var t := Trim(s);
    var negative := |t| > 0 && t[0] == '-';
    var unsigned := if |t| > 0 && (t[0] == '-' || t[0] == '+') then t[1..] else t;
    if |unsigned| == 0 || !AllDigits(unsigned) then None
    else
      var v: int := if negative then -(DigitsValue(unsigned) as int) else DigitsValue(unsigned);
      if Int32Min <= v <= Int32Max then Some(v) else None
  }

  /** The text after `vid=` up to the first `&` (`Split('&')[0]`). */
  function UpToAmpersand(s: string): (r: string)
    ensures |r| <= |s| && r == s[..|r|] && !Contains(r, "&")
    ensures |r| < |s| ==> s[|r|] == '&'
  {
    match Find(s, "&", 0, false)
    case None => s
    case Some(k) =>
      assert !Contains(s[..k], "&") by {
        forall j | MatchAt(s[..k], "&", j, false) ensures false { MatchInPrefix(s, "&", k, j); }
      }
      assert s[k..k + 1] == "&";
      s[..k]
  }

  /** The variant id of a URL: the value after the first `vid=`, up to the next `&`,
      when `int.TryParse` accepts it. */
  function VariantIdOf(s: string): Option<int> {
    match Find(s, VidMarker, 0, true)
    case None => None
    case Some(q) => TryParseInt32(UpToAmpersand(s[q + |VidMarker|..]))
  }

  /** `ProductUrlParser.Parse`. */
  function Parse(url: Option<string>): (r: Result<ParsedUrl, ParseError>)
    ensures r == Failure(BlankUrl) <==> IsBlank(url)
    ensures r.Success? ==> 0 <= r.value.productId <= Int32Max && r.value.variantId == VariantIdOf(url.value)
  {
    if IsBlank(url) then Failure(BlankUrl)
    else
      var s := url.value;
      match FindProductMatch(s, 0)
      case None => Failure(InvalidFormat)
      case Some(i) =>
        var productId := DigitsValue(ProductDigits(s, i));
        if productId > Int32Max then Failure(ProductIdOverflow)
        else
          Success(ParsedUrl(productId, VariantIdOf(s)))
  }

  /** A successful parse takes the digits of the leftmost product match as the product
      id. */
  lemma ParseProductId(url: Option<string>)
    requires Parse(url).Success?
    ensures var i := FindProductMatch(url.value, 0).value;
      ProductMatchAt(url.value, i) && (forall j :: 0 <= j < i ==> !ProductMatchAt(url.value, j)) &&
      Parse(url).value.productId == DigitsValue(ProductDigits(url.value, i))
  {
  }

  /** A URL that is not blank is rejected as malformed exactly when the pattern
      matches nowhere in it. */
  lemma InvalidFormatIffNoMatch(url: string)
    requires !IsBlank(Some(url))
    ensures Parse(Some(url)) == Failure(InvalidFormat) <==> forall j :: 0 <= j < |url| ==> !ProductMatchAt(url, j)
  {
    var m := FindProductMatch(url, 0);
    if m.Some? {
      assert ProductMatchAt(url, m.value) && m.value < |url|;
    }
  }

  /** A URL of the form `/product/<n>` parses to n without a variant. */
  lemma ParseBareProductUrl(n: nat)
    requires n <= Int32Max
    ensures Parse(Some(ProductSegment + ToDecimal(n))) == Success(ParsedUrl(n, None))
  {
    var d := ToDecimal(n);
    var url := ProductSegment + d;
    SegmentThenDigits(url, d, []);
    DigitsValueToDecimal(n);
    SegmentHasNoV(d);
    NoVidMarker(url, |url|);
  }

  /** A URL of the form `/product/<n>?vid=<m>` parses to n with variant m. */
  lemma ParseVariantProductUrl(n: nat, m: nat)
    requires n <= Int32Max && m <= Int32Max
    ensures Parse(Some(ProductSegment + ToDecimal(n) + "?vid=" + ToDecimal(m))) ==
      Success(ParsedUrl(n, Some(m)))
  {
    var d, e := ToDecimal(n), ToDecimal(m);
    var url := ProductSegment + d + "?vid=" + e;
    assert url == ProductSegment + d + ("?vid=" + e);
    SegmentThenDigits(url, d, "?vid=" + e);
    DigitsValueToDecimal(n);
    SegmentHasNoV(d);
    VidQuery(ProductSegment + d, e);
    NoAmpersand(e);
    TryParseDecimal(m);
  }

  /** Shared part of the round trips: a URL that starts with the segment and digits,
      followed by text that does not start with a digit, has its leftmost product match
      at 0 and those digits as product id. */
  lemma SegmentThenDigits(url: string, d: string, rest: string)
    requires url == ProductSegment + d + rest && AllDigits(d) && |d| > 0
    requires rest == [] || !IsDigit(rest[0])
    ensures !IsBlank(Some(url))
    ensures FindProductMatch(url, 0) == Some(0)
    ensures ProductDigits(url, 0) == d
  {
    assert url[0] == '/' && !IsWhiteSpace(url[0]);
    assert url[..|ProductSegment|] == ProductSegment;
    assert MatchAt(url, ProductSegment, 0, true);
    assert url[|ProductSegment|] == d[0];
    assert ProductMatchAt(url, 0);
    var start := |ProductSegment|;
    assert url[start..start + |d|] == d;
    assert start + |d| < |url| ==> url[start + |d|] == rest[0];
    DigitRunOfDigits(url, start, d);
  }

  /** No `vid=` (in any case) starts before index `limit` when none of the characters
      before it is a `v`. */
  lemma NoVidMarker(url: string, limit: nat)
    requires limit <= |url|
    requires forall j :: 0 <= j < limit ==> url[j] != 'v' && url[j] != 'V'
    ensures forall j :: 0 <= j < limit ==> !MatchAt(url, VidMarker, j, true)
  {
    forall j | 0 <= j < limit ensures !MatchAt(url, VidMarker, j, true) {
      if j + |VidMarker| <= |url| {
        assert ToLower(url[j..j + 4])[0] == LowerChar(url[j]) != 'v';
        assert ToLower(VidMarker)[0] == 'v';
      }
    }
  }

  /** Neither the product segment nor a digit is a `v`. */
  lemma SegmentHasNoV(d: string)
    requires AllDigits(d)
    ensures forall j :: 0 <= j < |ProductSegment + d| ==>
      (ProductSegment + d)[j] != 'v' && (ProductSegment + d)[j] != 'V'
  {
    forall j | 0 <= j < |ProductSegment + d|
      ensures (ProductSegment + d)[j] != 'v' && (ProductSegment + d)[j] != 'V'
    {
      if j < |ProductSegment| {
        assert (ProductSegment + d)[j] == ProductSegment[j];
      } else {
        assert (ProductSegment + d)[j] == d[j - |ProductSegment|];
      }
    }
  }

  /** In `prefix?vid=e`, with no `v` in the prefix, the first `vid=` is the query's and
      what follows it is e. */
  lemma VidQuery(prefix: string, e: string)
    requires forall j :: 0 <= j < |prefix| ==> prefix[j] != 'v' && prefix[j] != 'V'
    ensures Find(prefix + "?vid=" + e, VidMarker, 0, true) == Some(|prefix| + 1)
    ensures (prefix + "?vid=" + e)[|prefix| + 1 + |VidMarker|..] == e
  {
    var url := prefix + "?vid=" + e;
    var q := |prefix| + 1;
    assert url[|prefix|] == '?';
    NoVidMarker(url, q);
    assert url[q..q + 4] == VidMarker;
    assert MatchAt(url, VidMarker, q, true) by { ToLowerIdempotent(VidMarker); }
  }

  /** A string of digits has no `&`, so the query value runs to its end. */
  lemma NoAmpersand(e: string)
    requires AllDigits(e)
    ensures UpToAmpersand(e) == e
  {
    forall j | 0 <= j ensures !MatchAt(e, "&", j, false) {
      if j + 1 <= |e| {
        assert e[j..j + 1][0] == e[j];
      }
    }
  }

  /** `int.TryParse` reads back the decimal rendering of any Int32 value. */
  lemma TryParseDecimal(m: nat)
    requires m <= Int32Max
    ensures TryParseInt32(ToDecimal(m)) == Some(m)
  {
    var e := ToDecimal(m);
    assert !IsWhiteSpace(e[0]) && !IsWhiteSpace(e[|e| - 1]);
    TrimNoWhiteSpace(e);
    assert e[0] != '-' && e[0] != '+';
    DigitsValueToDecimal(m);
  }
}
