/**
 * The small helpers of the Awe namespace: clamp, sign, query-string lookup,
 * the fallback forEach loop, the session GUID counter and the "#rrggbb"
 * branch of the Color class.  The earlier revision of the namespace file
 * repeats clamp, getQueryParam, forEach and the GUID counter with the same
 * logic; this one module stands for both.
 */
module AweCore {
  import opened Wrappers

  // ---------------------------------------------------------------------
  // clamp and sign

  /** Math.max on reals. */
  function Max(a: real, b: real): (m: real)
    ensures m >= a && m >= b && (m == a || m == b)
  {
    if a >= b then a else b
  }

  function Min(a: real, b: real): real { if a <= b then a else b }

  /** Awe.clamp: the larger of `n` and `lo`, then the smaller of that and `hi`. */
  function Clamp(n: real, lo: real, hi: real): (r: real)
    ensures lo <= hi ==> lo <= r <= hi
    ensures lo <= n <= hi ==> r == n
    ensures hi < lo ==> r == hi
    ensures r == n || r == lo || r == hi
  {
    Min(Max(n, lo), hi)
  }

  /** Clamping preserves order: a larger input never clamps to a smaller result. */
  lemma ClampMonotone(n1: real, n2: real, lo: real, hi: real)
    requires n1 <= n2
    ensures Clamp(n1, lo, hi) <= Clamp(n2, lo, hi)
  {
  }

  /** Awe.sign: -1 for negative numbers, 1 otherwise (zero included). */
  function Sign(n: real): (r: int)
    ensures r == -1 <==> n < 0.0
    ensures r == 1 <==> 0.0 <= n
    ensures r * r == 1
  {
    if n < 0.0 then -1 else 1
  }

  // ---------------------------------------------------------------------
  // getQueryParam: the regular expression  [?&]name=([^&#]*)  read literally

  /** Characters that end a parameter value. */
  predicate IsValueStop(c: char) { c == '&' || c == '#' }

  /** `?name=` or `&name=` starts at index `k` of `url`. */
  predicate MatchAt(url: string, name: string, k: nat)
  {
    && k + |name| + 2 <= |url|
    && (url[k] == '?' || url[k] == '&')
    && url[k + 1 .. k + 1 + |name|] == name
    && url[k + 1 + |name|] == '='
  }

  /** The leftmost match at or after `from`, as a regular-expression search finds it. */
  function FindMatch(url: string, name: string, from: nat): (r: Option<nat>)
    decreases |url| - from
    ensures r.Some? ==> from <= r.value && MatchAt(url, name, r.value)
    ensures r.Some? ==> forall j :: from <= j < r.value ==> !MatchAt(url, name, j)
    ensures r.None? ==> forall j :: from <= j ==> !MatchAt(url, name, j)
  {
    if |url| < from + |name| + 2 then None
    else if MatchAt(url, name, from) then Some(from)
    else FindMatch(url, name, from + 1)
  }

  /** `r` is the longest prefix of `s` holding neither '&' nor '#'. */
  predicate LongestValueRun(r: string, s: string)
  {
    && r <= s
    && (forall i :: 0 <= i < |r| ==> !IsValueStop(r[i]))
    && (|r| == |s| || IsValueStop(s[|r|]))
  }

  /** The greedy group `([^&#]*)`. */
  function ValueRun(s: string): (r: string)
    ensures LongestValueRun(r, s)
  {
    if s == [] || IsValueStop(s[0]) then [] else [s[0]] + ValueRun(s[1..])
  }

  /** A missing or empty url falls back to the page's own address. */
  function EffectiveUrl(url: string, locationHref: string): string
  {
    if url == "" then locationHref else url
  }

  /**
   * Awe.getQueryParam(name, url): the value after the leftmost `?name=` or
   * `&name=`, up to the next '&' or '#', or "" when there is no such match.
   * The name is matched literally (see README for regular-expression
   * metacharacters).
   */
  function GetQueryParam(name: string, url: string, locationHref: string): (r: string)
    ensures (forall k: nat :: !MatchAt(EffectiveUrl(url, locationHref), name, k)) ==> r == ""
    ensures forall k: nat ::
      && MatchAt(EffectiveUrl(url, locationHref), name, k)
      && (forall j: nat :: j < k ==> !MatchAt(EffectiveUrl(url, locationHref), name, j))
      ==> LongestValueRun(r, EffectiveUrl(url, locationHref)[k + |name| + 2 ..])
  {
    var u := EffectiveUrl(url, locationHref);
    match FindMatch(u, name, 0)
    case None => ""
    case Some(k) => ValueRun(u[k + |name| + 2 ..])
  }

  /** The value run is determined by the text after the match: at most one string fits. */
  lemma {:induction false} ValueRunUnique(r1: string, r2: string, s: string)
    requires LongestValueRun(r1, s) && LongestValueRun(r2, s)
    ensures r1 == r2
  {
  }

  /** `r` occurs in `s` starting at index `k`. */
  predicate SubstringAt(r: string, s: string, k: nat)
  {
    k + |r| <= |s| && s[k .. k + |r|] == r
  }

  /** Where GetQueryParam's value starts in the url: just after `?name=`, or 0 without a match. */
  function Position(name: string, url: string, locationHref: string): nat
  {
    match FindMatch(EffectiveUrl(url, locationHref), name, 0)
    case None => 0
    case Some(k) => k + |name| + 2
  }

  /**
   * The value is a piece of the url itself and never holds '&' or '#':
   * no other parameter or fragment leaks into it.
   */
  lemma QueryParamFromUrl(name: string, url: string, locationHref: string)
    ensures var r := GetQueryParam(name, url, locationHref);
            && (forall i :: 0 <= i < |r| ==> !IsValueStop(r[i]))
            && SubstringAt(r, EffectiveUrl(url, locationHref), Position(name, url, locationHref))
  {
    var u := EffectiveUrl(url, locationHref);
    var r := GetQueryParam(name, url, locationHref);
    match FindMatch(u, name, 0)
    case None =>
    case Some(k) =>
      var start := k + |name| + 2;
      var rest := u[start..];
      assert LongestValueRun(r, rest);
      assert u[start .. start + |r|] == rest[..|r|] == r;
  }

  // ---------------------------------------------------------------------
  // forEach, the fallback loop used when Array.prototype.forEach is missing

  /**
   * Awe.forEach: the callback is invoked with (array[i], i) for every index
   * in increasing order.  The invocations are returned as a trace.
   */
  method ForEach<T>(a: seq<T>) returns (calls: seq<(T, nat)>)
    ensures |calls| == |a|
    ensures forall i :: 0 <= i < |a| ==> calls[i] == (a[i], i)
  {
    var length := |a|;
    var i := 0;
    calls := [];
    while i < length
      invariant 0 <= i <= length
      invariant |calls| == i
      invariant forall j :: 0 <= j < i ==> calls[j] == (a[j], j)
    {
      calls := calls + [(a[i], i)];
      i := i + 1;
    }
  }

  // ---------------------------------------------------------------------
  // Decimal rendering of naturals, as JavaScript's number-to-string does it

  function DigitChar(d: nat): (c: char)
    requires d < 10
    ensures '0' <= c <= '9'
    ensures c as int - '0' as int == d
  {
    ('0' as int + d) as char
  }

  predicate AllDigits(s: string)
  {
    forall i :: 0 <= i < |s| ==> '0' <= s[i] <= '9'
  }

  /** The number a string of decimal digits denotes, most significant digit first. */
  function DigitsValue(s: string): nat
    requires AllDigits(s)
    decreases |s|
  {
    if s == [] then 0
    else 10 * DigitsValue(s[..|s| - 1]) + (s[|s| - 1] as int - '0' as int)
  }

  /** The decimal text of `n`: digits that denote `n`, without leading zeros. */
  function DecimalString(n: nat): (s: string)
    ensures |s| >= 1 && AllDigits(s)
    ensures DigitsValue(s) == n
    ensures n >= 1 ==> s[0] != '0'
    ensures n >= 10 ==> |s| >= 2
  {
    if n < 10 then [DigitChar(n)]
    else
      var p := DecimalString(n / 10);
      var s := p + [DigitChar(n % 10)];
      assert s[..|s| - 1] == p;
      s
  }

  /** Distinct numbers have distinct decimal texts. */
  lemma {:induction false} DecimalStringInjective(a: nat, b: nat)
    requires DecimalString(a) == DecimalString(b)
    ensures a == b
  {
    var s := DecimalString(a);
    if a < 10 && b < 10 {
      assert DigitChar(a) == s[0] == DigitChar(b);
    } else if 10 <= a && 10 <= b {
      var p, q := DecimalString(a / 10), DecimalString(b / 10);
      assert s == p + [DigitChar(a % 10)];
      assert s == q + [DigitChar(b % 10)];
      assert DigitChar(a % 10) == s[|s| - 1] == DigitChar(b % 10);
      assert p == s[..|s| - 1] == q;
      DecimalStringInjective(a / 10, b / 10);
    }
  }

  // ---------------------------------------------------------------------
  // getGuid / getGuidNumeric: one counter shared by both

  /** "_guid_" followed by the counter value. */
  function GuidString(n: nat): (s: string)
    ensures |s| > 6 && s[..6] == "_guid_"
  {
    "_guid_" + DecimalString(n)
  }

  /** Distinct counter values give distinct GUID strings. */
  lemma GuidStringInjective(a: nat, b: nat)
    requires GuidString(a) == GuidString(b)
    ensures a == b
  {
    assert DecimalString(a) == GuidString(a)[6..] == GuidString(b)[6..] == DecimalString(b);
    DecimalStringInjective(a, b);
  }

  /** The module-level `_nextGuid` counter. */
  class GuidCounter {
    var nextGuid: nat
    /** Every value handed out so far, in order. */
    ghost var issued: seq<nat>

    ghost predicate Valid()
      reads this
    {
      && (forall i :: 0 <= i < |issued| ==> 0 < issued[i] <= nextGuid)
      && (forall i, j :: 0 <= i < j < |issued| ==> issued[i] < issued[j])
    }

    constructor ()
      ensures Valid() && nextGuid == 0 && issued == []
    {
      nextGuid := 0;
      issued := [];
    }

    /** Awe.getGuid: pre-increments the counter and returns "_guid_" + counter. */
    method GetGuid() returns (s: string)
      requires Valid()
      modifies this
      ensures Valid()
      ensures nextGuid == old(nextGuid) + 1 && issued == old(issued) + [nextGuid]
      ensures s == GuidString(nextGuid)
      ensures forall i :: 0 <= i < |old(issued)| ==> old(issued)[i] < nextGuid
    {
      nextGuid := nextGuid + 1;
      issued := issued + [nextGuid];
      s := GuidString(nextGuid);
    }

    /** Awe.getGuidNumeric: pre-increments the same counter and returns it. */
    method GetGuidNumeric() returns (n: nat)
      requires Valid()
      modifies this
      ensures Valid()
      ensures nextGuid == old(nextGuid) + 1 && issued == old(issued) + [nextGuid]
      ensures n == nextGuid && n > 0
      ensures forall i :: 0 <= i < |old(issued)| ==> old(issued)[i] < n
    {
      nextGuid := nextGuid + 1;
      issued := issued + [nextGuid];
      n := nextGuid;
    }
  }

  // ---------------------------------------------------------------------
  // Color, "#rrggbb" branch

  /** The `hexToInt` table: 0-9, a-f and A-F; any other key is undefined. */
  function HexValue(c: char): (r: Option<nat>)
    ensures r.Some? <==> ('0' <= c <= '9' || 'a' <= c <= 'f' || 'A' <= c <= 'F')
    ensures r.Some? ==> r.value < 16
    ensures 'a' <= c <= 'f' ==> r == HexValue((c as int - 32) as char)
  {
    if '0' <= c <= '9' then Some(c as int - '0' as int)
    else if 'a' <= c <= 'f' then Some(c as int - 'a' as int + 10)
    else if 'A' <= c <= 'F' then Some(c as int - 'A' as int + 10)
    else None
  }

  /** `hexToInt[color[k]]`; reading past the end of the string is undefined as well. */
  function HexAt(s: string, k: nat): Option<nat>
  {
    if k < |s| then HexValue(s[k]) else None
  }

  /** A colour component: a number, or NaN. */
  datatype Channel = Num(n: nat) | NaN

  /**
   * `(hexToInt[s[k]] << 4) + hexToInt[s[k + 1]]`.  JavaScript shifts an
   * undefined high digit as 0, while adding an undefined low digit gives NaN.
   */
  function ChannelAt(s: string, k: nat): (c: Channel)
    ensures c.Num? <==> HexAt(s, k + 1).Some?
    ensures c.Num? ==> c.n <= 255
    ensures HexAt(s, k).Some? && HexAt(s, k + 1).Some? ==>
              c == Num(16 * HexAt(s, k).value + HexAt(s, k + 1).value)
    ensures HexAt(s, k).None? && HexAt(s, k + 1).Some? ==> c == Num(HexAt(s, k + 1).value)
  {
    match HexAt(s, k + 1)
    case None => NaN
    case Some(lo) => Num(16 * HexAt(s, k).GetOr(0) + lo)
  }

  /** The text JavaScript produces when a component is concatenated into a string. */
  function ChannelText(c: Channel): string
  {
    match c
    case Num(n) => DecimalString(n)
    case NaN => "NaN"
  }

  /** Lower-case hexadecimal digit, used to build colour strings. */
  function HexDigit(d: nat): (c: char)
    requires d < 16
    ensures HexValue(c) == Some(d)
  {
    if d < 10 then DigitChar(d) else ('a' as int + d - 10) as char
  }

  /** Two hexadecimal digits for a byte value. */
  function HexByte(n: nat): (s: string)
    requires n < 256
    ensures |s| == 2
  {
    [HexDigit(n / 16), HexDigit(n % 16)]
  }

  /** "#rrggbb" for three byte values. */
  function HexColor(r: nat, g: nat, b: nat): (s: string)
    requires r < 256 && g < 256 && b < 256
    ensures |s| == 7 && s[0] == '#'
  {
    "#" + HexByte(r) + HexByte(g) + HexByte(b)
  }

  /** Parsing a "#rrggbb" string built from three bytes gives those bytes back. */
  lemma HexColorRoundTrip(r: nat, g: nat, b: nat)
    requires r < 256 && g < 256 && b < 256
    ensures ChannelAt(HexColor(r, g, b), 1) == Num(r)
    ensures ChannelAt(HexColor(r, g, b), 3) == Num(g)
    ensures ChannelAt(HexColor(r, g, b), 5) == Num(b)
  {
    var s := HexColor(r, g, b);
    assert s[1] == HexDigit(r / 16) && s[2] == HexDigit(r % 16);
    assert s[3] == HexDigit(g / 16) && s[4] == HexDigit(g % 16);
    assert s[5] == HexDigit(b / 16) && s[6] == HexDigit(b % 16);
  }

  /** Upper-case A-F is read exactly like lower-case a-f. */
  function UpperHex(c: char): char
  {
    if 'a' <= c <= 'f' then (c as int - 32) as char else c
  }

  /** Upper-casing the hexadecimal letters of a colour string leaves every component unchanged. */
  lemma {:induction false} ChannelCaseInsensitive(s: string, k: nat)
    ensures ChannelAt(UpperHexString(s), k) == ChannelAt(s, k)
  {
    var u := UpperHexString(s);
    assert HexAt(u, k) == HexAt(s, k) by {
      if k < |s| { assert u[k] == UpperHex(s[k]); }
    }
    assert HexAt(u, k + 1) == HexAt(s, k + 1) by {
      if k + 1 < |s| { assert u[k + 1] == UpperHex(s[k + 1]); }
    }
  }

  function UpperHexString(s: string): (u: string)
    ensures |u| == |s|
    ensures forall i :: 0 <= i < |s| ==> u[i] == UpperHex(s[i])
  {
    seq(|s|, i requires 0 <= i < |s| => UpperHex(s[i]))
  }

  /** An instance of Awe.Color built from a "#rrggbb" specification. */
  class Color {
    var hex: string
    var r: Channel
    var g: Channel
    var b: Channel
    var a: nat

    /** The constructor's '#' branch; components come from character pairs 1-2, 3-4 and 5-6. */
    constructor (color: string)
      requires |color| > 0 && color[0] == '#'
      ensures hex == color && a == 1
      ensures r == ChannelAt(color, 1) && g == ChannelAt(color, 3) && b == ChannelAt(color, 5)
    {
      hex := color;
      r := ChannelAt(color, 1);
      g := ChannelAt(color, 3);
      b := ChannelAt(color, 5);
      a := 1;
    }

    /** toHex returns the specification string as given. */
    function ToHex(): (s: string)
      reads this
      ensures s == hex
    {
      hex
    }

    /**
     * toRGBA(alpha): the stored alpha is used when no alpha is passed.  A passed
     * alpha is taken as the text JavaScript renders for it.
     */
    function ToRGBA(alpha: Option<string>): (s: string)
      reads this
      ensures alpha.None? ==> s == RgbaText(r, g, b, DecimalString(a))
      ensures alpha.Some? ==> s == RgbaText(r, g, b, alpha.value)
    {
      RgbaText(r, g, b, alpha.GetOr(DecimalString(a)))
    }

    /** toRGB emits "rgba(" followed by only three components. */
    function ToRGB(): (s: string)
      reads this
      ensures |s| > 5 && s[..5] == "rgba("
      ensures s == "rgba(" + ChannelText(r) + "," + ChannelText(g) + "," + ChannelText(b) + ")"
    {
      "rgba(" + ChannelText(r) + "," + ChannelText(g) + "," + ChannelText(b) + ")"
    }
  }

  function RgbaText(r: Channel, g: Channel, b: Channel, alpha: string): string
  {
    "rgba(" + ChannelText(r) + "," + ChannelText(g) + "," + ChannelText(b) + "," + alpha + ")"
  }

  /** For a well-formed "#rrggbb" string every component is a number in [0, 255]. */
  lemma WellFormedHexColor(s: string)
    requires |s| == 7 && s[0] == '#'
    requires forall i :: 1 <= i < 7 ==> HexValue(s[i]).Some?
    ensures ChannelAt(s, 1).Num? && ChannelAt(s, 3).Num? && ChannelAt(s, 5).Num?
    ensures ChannelAt(s, 1).n == 16 * HexValue(s[1]).value + HexValue(s[2]).value
  {
    assert HexAt(s, 2).Some? && HexAt(s, 4).Some? && HexAt(s, 6).Some?;
    assert HexAt(s, 1).Some?;
  }
}
