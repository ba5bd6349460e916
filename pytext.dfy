/** The few Python `str` operations the generators rely on: `strip()`, `lower()`,
    `upper()`, `find()`, `rfind()`, `", ".join(...)` and the text branch of `int()`. */
module PyText {
  import opened Wrappers

  /** `str.isspace()` for one character: the characters Python's `strip()` removes
      and the regular-expression class `\s` matches. */
  predicate IsSpace(c: char) {
    c == ' ' || ('\t' <= c <= '\r') || ('\U{1C}' <= c <= '\U{1F}')
    || c == '\U{85}' || c == '\U{A0}' || c == '\U{1680}'
    || ('\U{2000}' <= c <= '\U{200A}') || c == '\U{2028}' || c == '\U{2029}'
    || c == '\U{202F}' || c == '\U{205F}' || c == '\U{3000}'
  }

  predicate AllSpace(s: string) {
    forall i :: 0 <= i < |s| ==> IsSpace(s[i])
  }

  /** Drops the leading whitespace: the result is the suffix of `s` that starts at its
      first non-space character. */
  function TrimStart(s: string): (r: string)
    ensures |r| <= |s| && r == s[|s| - |r|..]
    ensures forall i :: 0 <= i < |s| - |r| ==> IsSpace(s[i])
    ensures r != [] ==> !IsSpace(r[0])
  {
    if s != [] && IsSpace(s[0]) then
      var r := TrimStart(s[1..]);
      assert s[1..][|s| - 1 - |r|..] == s[|s| - |r|..];
      assert forall i :: 1 <= i < |s| - |r| ==> IsSpace(s[i]) by {
        forall i | 1 <= i < |s| - |r|
          ensures IsSpace(s[i])
        {
          assert s[i] == s[1..][i - 1];
        }
      }
      r
    else s
  }

  /** Drops the trailing whitespace: the result is the prefix of `s` that ends at its
      last non-space character. */
  function TrimEnd(s: string): (r: string)
    ensures |r| <= |s| && r == s[..|r|]
    ensures forall i :: |r| <= i < |s| ==> IsSpace(s[i])
    ensures r != [] ==> !IsSpace(r[|r| - 1])
  {
    if s != [] && IsSpace(s[|s| - 1]) then
      var r := TrimEnd(s[..|s| - 1]);
      assert s[..|s| - 1][..|r|] == s[..|r|];
      r
    else s
  }

  /** `s.strip()` */
  function Strip(s: string): (r: string)
    ensures r != [] ==> !IsSpace(r[0]) && !IsSpace(r[|r| - 1])
    ensures |r| <= |s|
  {
    TrimEnd(TrimStart(s))
  }

  lemma {:induction false} TrimStartPadded(p: string, x: string)
    requires AllSpace(p)
    ensures TrimStart(p + x) == TrimStart(x)
    decreases |p|
  {
    if p == [] {
      assert p + x == x;
    } else {
      assert (p + x)[0] == p[0] && (p + x)[1..] == p[1..] + x;
      TrimStartPadded(p[1..], x);
    }
  }

  lemma {:induction false} TrimEndPadded(x: string, q: string)
    requires AllSpace(q)
    ensures TrimEnd(x + q) == TrimEnd(x)
    decreases |q|
  {
    if q == [] {
      assert x + q == x;
    } else {
      assert (x + q)[|x + q| - 1] == q[|q| - 1];
      assert (x + q)[..|x + q| - 1] == x + q[..|q| - 1];
      TrimEndPadded(x, q[..|q| - 1]);
    }
  }

  /** Trailing whitespace survives `TrimStart` unless the whole text is whitespace. */
  lemma {:induction false} TrimStartThroughSpace(x: string, q: string)
    requires AllSpace(q)
    ensures TrimStart(x + q) == TrimStart(x) + q
         || (TrimStart(x) == [] && TrimStart(x + q) == [])
    decreases |x|
  {
    if x == [] {
      assert x + q == q;
      TrimStartPadded(q, []);
      assert q + [] == q;
    } else if IsSpace(x[0]) {
      assert (x + q)[1..] == x[1..] + q;
      TrimStartThroughSpace(x[1..], q);
    }
  }

  /** Whitespace added around a text does not change what `strip()` returns. */
  lemma StripPadded(p: string, t: string, q: string)
    requires AllSpace(p) && AllSpace(q)
    ensures Strip(p + t + q) == Strip(t)
  {
    TrimStartLead(p, t, q);
    TrimEndTrail(t, q);
  }

  lemma TrimStartLead(p: string, t: string, q: string)
    requires AllSpace(p)
    ensures TrimStart(p + t + q) == TrimStart(t + q)
  {
    ConcatAssoc(p, t, q);
    TrimStartPadded(p, t + q);
  }

  lemma ConcatAssoc(a: string, b: string, c: string)
    ensures a + b + c == a + (b + c)
  {
  }

  lemma TrimEndTrail(t: string, q: string)
    requires AllSpace(q)
    ensures TrimEnd(TrimStart(t + q)) == TrimEnd(TrimStart(t))
  {
    TrimStartThroughSpace(t, q);
    if TrimStart(t + q) == TrimStart(t) + q {
      TrimEndPadded(TrimStart(t), q);
    }
  }

  /** A text with no whitespace at either end is left alone by `strip()`. */
  lemma StripStripped(s: string)
    requires s != [] ==> !IsSpace(s[0]) && !IsSpace(s[|s| - 1])
    ensures Strip(s) == s
  {
  }

  predicate IsUpperChar(c: char) {
    ('A' <= c <= 'Z') || ('\U{C0}' <= c <= '\U{DE}' && c != '\U{D7}')
  }

  predicate IsLowerChar(c: char) {
    ('a' <= c <= 'z') || ('\U{E0}' <= c <= '\U{FE}' && c != '\U{F7}')
  }

  /** `lower()` on one character of the Basic Latin or Latin-1 blocks. */
  function LowerChar(c: char): (r: char)
    ensures !IsUpperChar(r)
    ensures IsSpace(r) <==> IsSpace(c)
    ensures !IsUpperChar(c) ==> r == c
  {
    if IsUpperChar(c) then (c as int + 32) as char else c
  }

  /** `upper()` on one character of the Basic Latin or Latin-1 blocks. */
  function UpperChar(c: char): (r: char)
    ensures !IsLowerChar(r)
    ensures IsSpace(r) <==> IsSpace(c)
    ensures !IsLowerChar(c) ==> r == c
    ensures IsLowerChar(c) ==> IsUpperChar(r) && LowerChar(r) == c
  {
    if IsLowerChar(c) then (c as int - 32) as char else c
  }

  /** `s.lower()` */
  function Lower(s: string): (r: string)
    ensures |r| == |s|
    ensures forall i :: 0 <= i < |s| ==> r[i] == LowerChar(s[i])
  {
    seq(|s|, i requires 0 <= i < |s| => LowerChar(s[i]))
  }

  /** `s.upper()` */
  function Upper(s: string): (r: string)
    ensures |r| == |s|
    ensures forall i :: 0 <= i < |s| ==> r[i] == UpperChar(s[i])
  {
    seq(|s|, i requires 0 <= i < |s| => UpperChar(s[i]))
  }

  lemma UpperIdempotent(s: string)
    ensures Upper(Upper(s)) == Upper(s)
  {
    assert forall i :: 0 <= i < |s| ==> Upper(Upper(s))[i] == Upper(s)[i];
  }

  /** Upper-casing a text that has no upper-case letter and lower-casing it again
      gives the text back. */
  lemma LowerUpper(s: string)
    requires forall i :: 0 <= i < |s| ==> !IsUpperChar(s[i])
    ensures Lower(Upper(s)) == s
  {
    assert forall i :: 0 <= i < |s| ==> Lower(Upper(s))[i] == s[i];
  }

  /** Changing case neither creates nor removes whitespace at the ends, so it commutes
      with `strip()` on an already stripped text. */
  lemma StripUpper(s: string)
    requires Strip(s) == s
    ensures Strip(Upper(s)) == Upper(s)
  {
    StripStripped(Upper(s));
  }

  /** `s.find(c)`, with `None` for Python's `-1`. */
  function Find(s: string, c: char): (r: Option<nat>)
    ensures r.None? <==> c !in s
    ensures r.Some? ==> r.value < |s| && s[r.value] == c && c !in s[..r.value]
  {
    if s == [] then None
    else if s[0] == c then Some(0)
    else match Find(s[1..], c)
      case None => None
      case Some(i) =>
        assert s[..i + 1] == [s[0]] + s[1..][..i];
        Some(i + 1)
  }

  /** `s.rfind(c)`, with `None` for Python's `-1`. */
  function RFind(s: string, c: char): (r: Option<nat>)
    ensures r.None? <==> c !in s
    ensures r.Some? ==> r.value < |s| && s[r.value] == c && c !in s[r.value + 1..]
  {
    if s == [] then None
    else if s[|s| - 1] == c then Some(|s| - 1)
    else
      assert s == s[..|s| - 1] + [s[|s| - 1]];
      RFind(s[..|s| - 1], c)
  }

  /** `sep.join(items)` */
  function Join(items: seq<string>, sep: string): (r: string)
    ensures items == [] ==> r == []
    ensures |items| == 1 ==> r == items[0]
  {
    if items == [] then []
    else if |items| == 1 then items[0]
    else items[0] + sep + Join(items[1..], sep)
  }

  /** Joining a non-empty list puts the separator after its first item. */
  lemma JoinCons(x: string, rest: seq<string>, sep: string)
    requires rest != []
    ensures Join([x] + rest, sep) == x + sep + Join(rest, sep)
  {
    assert ([x] + rest)[1..] == rest;
  }

  predicate IsDigit(c: char) {
    '0' <= c <= '9'
  }

  predicate AllDigits(s: string) {
    forall i :: 0 <= i < |s| ==> IsDigit(s[i])
  }

  /** The value of a run of decimal digits, most significant first. */
  function DigitsValue(d: string): nat
    requires AllDigits(d)
  {
    if d == [] then 0 else DigitsValue(d[..|d| - 1]) * 10 + (d[|d| - 1] as int - '0' as int)
  }

  /** The decimal digits of `n`, without leading zeros. */
  function Decimal(n: nat): (d: string)
    ensures d != [] && AllDigits(d)
  {
    if n < 10 then [(n + '0' as int) as char] else Decimal(n / 10) + [(n % 10 + '0' as int) as char]
  }

  lemma {:induction false} DecimalValue(n: nat)
    ensures DigitsValue(Decimal(n)) == n
  {
    if n >= 10 {
      var d := Decimal(n);
      assert d[..|d| - 1] == Decimal(n / 10);
      DecimalValue(n / 10);
    }
  }

  /** The text of `n` as `str(n)` writes it. */
  function IntText(n: int): (t: string)
    ensures t != [] && !IsSpace(t[0]) && !IsSpace(t[|t| - 1])
  {
    if n < 0 then "-" + Decimal(-n) else Decimal(n)
  }

  /** An optional sign followed by one or more decimal digits. */
  function ParseSigned(s: string): (r: Option<int>)
    ensures r.Some? ==> s != [] && IsDigit(s[|s| - 1])
    ensures r.Some? && r.value < 0 ==> s[0] == '-'
  {
    var body := if s != [] && (s[0] == '-' || s[0] == '+') then s[1..] else s;
    if body != [] && AllDigits(body) then
      Some(if s[0] == '-' then -(DigitsValue(body) as int) else DigitsValue(body))
    else None
  }

  /** The text branch of `int(x)`: surrounding whitespace, then an optional sign,
      then one or more decimal digits; anything else raises, modelled as `None`. */
  function ParseInt(t: string): (r: Option<int>)
    ensures r.Some? ==> Strip(t) != [] && IsDigit(Strip(t)[|Strip(t)| - 1])
    ensures r.Some? && r.value < 0 ==> Strip(t)[0] == '-'
  {
    ParseSigned(Strip(t))
  }

  lemma ParseSignedIntText(n: int)
    ensures ParseSigned(IntText(n)) == Some(n)
  {
    var t := IntText(n);
    if n < 0 {
      var d := Decimal(-n);
      assert t == "-" + d && t[0] == '-';
      assert t[1..] == d;
      DecimalValue(-n);
    } else {
      var d := Decimal(n);
      assert t == d && IsDigit(d[0]);
      DecimalValue(n);
    }
  }

  /** `int(str(n)) == n`: the decimal text of a number, with or without surrounding
      whitespace, parses back to it. */
  lemma ParseIntText(p: string, n: int, q: string)
    requires AllSpace(p) && AllSpace(q)
    ensures ParseInt(p + IntText(n) + q) == Some(n)
  {
    StripPadded(p, IntText(n), q);
    StripStripped(IntText(n));
    ParseSignedIntText(n);
  }
}
