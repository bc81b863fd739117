/** The JavaScript string operations the core relies on: `String.fromCharCode` on
    bytes, `indexOf`, `split` on one character, `trim`, `parseInt` (no radix),
    `Number` on a token, `toLowerCase` and the decimal rendering of an integer. */
module Text {
  import opened Wrappers

  /** An unsigned 8-bit value, as held by a `Uint8Array`/`DataView`. */
  newtype byte = b: int | 0 <= b < 0x100

  /** `String.fromCharCode(b)` for each byte: the character whose code is the byte. */
  function Latin1(bytes: seq<byte>): (s: string)
    ensures |s| == |bytes|
    ensures forall i :: 0 <= i < |bytes| ==> s[i] as int == bytes[i] as int
  {
    seq(|bytes|, i requires 0 <= i < |bytes| => (bytes[i] as int) as char)
  }

  ghost predicate MatchAt(s: string, pat: string, k: int)
  {
    0 <= k && k + |pat| <= |s| && s[k..k + |pat|] == pat
  }

  /** `s.indexOf(pat)`: the first position where `pat` occurs, or -1 when it
      occurs nowhere. */
  function IndexOf(s: string, pat: string): (r: int)
    ensures -1 <= r
    ensures r >= 0 ==> MatchAt(s, pat, r)
    ensures r < 0 ==> forall k :: !MatchAt(s, pat, k)
    ensures forall k :: 0 <= k < r ==> !MatchAt(s, pat, k)
    decreases |s|
  {
    if |s| < |pat| then -1
    else if s[..|pat|] == pat then 0
    else
      var r := IndexOf(s[1..], pat);
      forall k | 1 <= k ensures MatchAt(s, pat, k) <==> MatchAt(s[1..], pat, k - 1) {
        MatchAtTail(s, pat, k);
      }
      if r < 0 then -1 else r + 1
  }

  lemma MatchAtTail(s: string, pat: string, k: int)
    requires 1 <= k && |s| >= 1
    ensures MatchAt(s, pat, k) <==> MatchAt(s[1..], pat, k - 1)
  {
    if k + |pat| <= |s| {
      var a, b := s[k..k + |pat|], s[1..][k - 1..k - 1 + |pat|];
      assert |a| == |b|;
      forall i | 0 <= i < |a| ensures a[i] == b[i] {
        assert a[i] == s[k + i] && b[i] == s[1..][k - 1 + i];
      }
      assert a == b;
    }
  }

  lemma MatchAtAppend(s: string, t: string, pat: string, k: int)
    requires 0 <= k && k + |pat| <= |s|
    ensures MatchAt(s + t, pat, k) <==> MatchAt(s, pat, k)
  {
    assert (s + t)[k..k + |pat|] == s[k..k + |pat|];
  }

  /** `s.includes(pat)`. */
  predicate Contains(s: string, pat: string)
  {
    IndexOf(s, pat) >= 0
  }

  /** A first occurrence stays the first occurrence when text is appended. */
  lemma IndexOfAppend(s: string, t: string, pat: string)
    requires IndexOf(s, pat) >= 0
    ensures IndexOf(s + t, pat) == IndexOf(s, pat)
  {
    var k := IndexOf(s, pat);
    MatchAtAppend(s, t, pat, k);
    forall j | 0 <= j < k ensures !MatchAt(s + t, pat, j) {
      MatchAtAppend(s, t, pat, j);
    }
  }

  /** When `pat` is absent from `s` but present once one character is appended,
      its first occurrence is the suffix of the longer string. */
  lemma IndexOfFirstAppearance(s: string, c: char, pat: string)
    requires IndexOf(s, pat) < 0 && IndexOf(s + [c], pat) >= 0
    ensures IndexOf(s + [c], pat) == |s| + 1 - |pat|
  {
    var k := IndexOf(s + [c], pat);
    if k + |pat| <= |s| {
      MatchAtAppend(s, [c], pat, k);
    }
  }

  function Join(parts: seq<string>, sep: char): string
    requires |parts| >= 1
    decreases |parts|
  {
    if |parts| == 1 then parts[0] else parts[0] + [sep] + Join(parts[1..], sep)
  }

  /** `s.split(sep)` for a one-character separator: the maximal separator-free
      pieces, at least one, that joined with `sep` give back `s`. */
  function Split(s: string, sep: char): (parts: seq<string>)
    ensures |parts| >= 1
    ensures forall i :: 0 <= i < |parts| ==> sep !in parts[i]
    ensures Join(parts, sep) == s
    decreases |s|
  {
    if s == [] then [[]]
    else
      var rest := Split(s[1..], sep);
      if s[0] == sep then
        assert ([[]] + rest)[1..] == rest;
        [[]] + rest
      else
        var parts := [[s[0]] + rest[0]] + rest[1..];
        assert parts[1..] == rest[1..];
        assert |rest| > 1 ==> Join(rest, sep) == rest[0] + [sep] + Join(rest[1..], sep);
        assert s == [s[0]] + s[1..];
        parts
  }

  function Last<T>(xs: seq<T>): T
    requires |xs| > 0
  {
    xs[|xs| - 1]
  }

  /** The last piece of a split is the text after the last separator, or the
      whole string when there is no separator. */
  lemma {:induction false} LastPieceFollowsLastSeparator(s: string, sep: char)
    ensures var e := Last(Split(s, sep));
      sep !in e && |e| <= |s| && e == s[|s| - |e|..] && (|e| < |s| ==> s[|s| - |e| - 1] == sep)
    ensures |Split(s, sep)| > 1 ==> |Last(Split(s, sep))| < |s|
  {
    if s != [] {
      var t := s[1..];
      var e' := Last(Split(t, sep));
      LastPieceFollowsLastSeparator(t, sep);
      if s[0] == sep || |Split(t, sep)| > 1 {
        SplitKeepsLastPiece(s, sep);
        assert t[|t| - |e'|..] == s[|s| - |e'|..];
        if |e'| < |t| {
          assert s[|s| - |e'| - 1] == t[|t| - |e'| - 1];
        }
      } else {
        SplitWithoutSeparator(s, sep);
      }
    }
  }

  /** A leading separator, or a later one, leaves the last piece to the tail. */
  lemma SplitKeepsLastPiece(s: string, sep: char)
    requires s != [] && (s[0] == sep || |Split(s[1..], sep)| > 1)
    ensures |Split(s, sep)| > 1 && Last(Split(s, sep)) == Last(Split(s[1..], sep))
  {
  }

  /** A string whose tail splits into one piece, and which does not start with
      the separator, is a single piece. */
  lemma SplitWithoutSeparator(s: string, sep: char)
    requires s != [] && s[0] != sep && |Split(s[1..], sep)| == 1
    ensures Split(s, sep) == [s]
  {
    var rest := Split(s[1..], sep);
    assert rest[0] == s[1..];
  }

  /** JavaScript's WhiteSpace and LineTerminator characters, removed by `trim`
      and skipped by `parseInt`. */
  predicate IsWhiteSpace(c: char)
  {
    c == '\t' || c == '\n' || c == '\U{B}' || c == '\U{C}' || c == '\r' || c == ' '
    || c == '\U{A0}' || c == '\U{1680}' || ('\U{2000}' <= c <= '\U{200A}')
    || c == '\U{2028}' || c == '\U{2029}' || c == '\U{202F}' || c == '\U{205F}'
    || c == '\U{3000}' || c == '\U{FEFF}'
  }

  /** `s.trimStart()`: drops the leading white space and nothing else. */
  function TrimStart(s: string): (t: string)
    ensures |t| <= |s| && t == s[|s| - |t|..]
    ensures forall i :: 0 <= i < |s| - |t| ==> IsWhiteSpace(s[i])
    ensures t != [] ==> !IsWhiteSpace(t[0])
    decreases |s|
  {
    if s != [] && IsWhiteSpace(s[0]) then TrimStart(s[1..]) else s
  }

  /** The index of the first character at or after `k` that is not white space,
      or `|s|`. */
  function TextStart(s: string, k: nat): (lo: nat)
    requires k <= |s|
    ensures k <= lo <= |s|
    ensures forall i :: k <= i < lo ==> IsWhiteSpace(s[i])
    ensures lo < |s| ==> !IsWhiteSpace(s[lo])
    decreases |s| - k
  {
    if k < |s| && IsWhiteSpace(s[k]) then TextStart(s, k + 1) else k
  }

  /** One past the last character before `k`, and not before `lo`, that is not
      white space, or `lo`. */
  function TextEnd(s: string, lo: nat, k: nat): (hi: nat)
    requires lo <= k <= |s|
    ensures lo <= hi <= k
    ensures forall i :: hi <= i < k ==> IsWhiteSpace(s[i])
    ensures hi > lo ==> !IsWhiteSpace(s[hi - 1])
    decreases k
  {
    if k > lo && IsWhiteSpace(s[k - 1]) then TextEnd(s, lo, k - 1) else k
  }

  /** `s.trim()`: the part of `s` after its leading white space and before its
      trailing white space, which begins and ends with other characters. */
  function Trim(s: string): (t: string)
    ensures var lo := TextStart(s, 0);
      lo + |t| <= |s| && t == s[lo..lo + |t|]
      && forall i :: 0 <= i < |s| && !(lo <= i < lo + |t|) ==> IsWhiteSpace(s[i])
    ensures t != [] ==> !IsWhiteSpace(t[0]) && !IsWhiteSpace(t[|t| - 1])
  {
    var lo := TextStart(s, 0);
    s[lo..TextEnd(s, lo, |s|)]
  }

  /** `trim` leaves nothing exactly when the text is all white space. */
  lemma {:induction false} TrimEmptyIffBlank(s: string)
    ensures Trim(s) == [] <==> forall i :: 0 <= i < |s| ==> IsWhiteSpace(s[i])
  {
    var t := Trim(s);
    var lo := TextStart(s, 0);
    if t != [] {
      assert s[lo] == t[0];
    }
  }

  /** Trimming twice is trimming once. */
  lemma TrimIdempotent(s: string)
    ensures Trim(Trim(s)) == Trim(s)
  {
    var t := Trim(s);
    if t != [] {
      assert TextStart(t, 0) == 0;
      assert TextEnd(t, 0, |t|) == |t|;
      assert t[0..|t|] == t;
    }
  }

  /** The value of `c` as a digit in base 10 or 16, if it is one. */
  function DigitValue(c: char, radix: nat): (d: Option<nat>)
    requires radix == 10 || radix == 16
    ensures d.Some? ==> d.value < radix
  {
    if '0' <= c <= '9' then Some(c as int - '0' as int)
    else if radix == 16 && 'a' <= c <= 'f' then Some(c as int - 'a' as int + 10)
    else if radix == 16 && 'A' <= c <= 'F' then Some(c as int - 'A' as int + 10)
    else None
  }

  predicate AllDigits(s: string, radix: nat)
    requires radix == 10 || radix == 16
  {
    forall i :: 0 <= i < |s| ==> DigitValue(s[i], radix).Some?
  }

  /** The longest prefix of `s` made of digits. */
  function DigitPrefix(s: string, radix: nat): (p: string)
    requires radix == 10 || radix == 16
    ensures |p| <= |s| && p == s[..|p|] && AllDigits(p, radix)
    ensures |p| < |s| ==> DigitValue(s[|p|], radix).None?
    decreases |s|
  {
    if s != [] && DigitValue(s[0], radix).Some? then
      var p := [s[0]] + DigitPrefix(s[1..], radix);
      assert forall i :: 1 <= i < |p| ==> p[i] == DigitPrefix(s[1..], radix)[i - 1];
      p
    else []
  }

  /** The number written by a string of digits, most significant first. */
  function DigitsValue(s: string, radix: nat): nat
    requires radix == 10 || radix == 16
    requires AllDigits(s, radix)
    decreases |s|
  {
    if s == [] then 0
    else
      assert AllDigits(s[..|s| - 1], radix) by {
        forall i | 0 <= i < |s| - 1 ensures s[..|s| - 1][i] == s[i] {}
      }
      DigitsValue(s[..|s| - 1], radix) * radix + DigitValue(s[|s| - 1], radix).value
  }

  /** `parseInt(s)` without a radix: skip leading white space, take one sign,
      read base 16 after a `0x`/`0X` prefix and base 10 otherwise, and stop at the
      first non-digit; NaN (`None`) when no digit was read. */
  function ParseInt(s: string): Option<int>
  {
    ParseTrimmed(TrimStart(s))
  }

  /** `parseInt` once the leading white space is gone. */
  function ParseTrimmed(t: string): Option<int>
  {
    var negative := t != [] && t[0] == '-';
    match Magnitude(if t != [] && (t[0] == '-' || t[0] == '+') then t[1..] else t)
    case None => None
    case Some(v) => var x: int := v; Some(if negative then -x else x)
  }

  /** The unsigned part of `parseInt`: hexadecimal digits after `0x`/`0X`,
      decimal digits otherwise; nothing when no digit was read. */
  function Magnitude(u: string): Option<nat>
  {
    if |u| >= 2 && u[0] == '0' && (u[1] == 'x' || u[1] == 'X')
    then DigitRunValue(DigitPrefix(u[2..], 16), 16)
    else DigitRunValue(DigitPrefix(u, 10), 10)
  }

  function DigitRunValue(digits: string, radix: nat): Option<nat>
    requires radix == 10 || radix == 16
    requires AllDigits(digits, radix)
  {
    if digits == [] then None else Some(DigitsValue(digits, radix))
  }

  /** `Number(s)` restricted to decimal integers: white space around an optionally
      signed run of decimal digits; the empty (or blank) string is 0; anything
      else is NaN (`None`). */
  function ToNumber(s: string): (r: Option<int>)
    ensures (forall i :: 0 <= i < |s| ==> IsWhiteSpace(s[i])) ==> r == Some(0)
  {
    TrimEmptyIffBlank(s);
    NumberTrimmed(Trim(s))
  }

  /** `Number` once the surrounding white space is gone. */
  function NumberTrimmed(t: string): Option<int>
  {
    if t == [] then Some(0)
    else
      var negative := t[0] == '-';
      var digits := if t[0] == '-' || t[0] == '+' then t[1..] else t;
      if digits != [] && AllDigits(digits, 10) then
        var v: int := DigitsValue(digits, 10);
        Some(if negative then -v else v)
      else None
  }

  function DigitChar(d: nat): (c: char)
    requires d < 10
    ensures DigitValue(c, 10) == Some(d)
  {
    ('0' as int + d) as char
  }

  function Digits(n: nat): (s: string)
    ensures s != [] && AllDigits(s, 10)
    decreases n
  {
    if n < 10 then [DigitChar(n)]
    else
      var s := Digits(n / 10) + [DigitChar(n % 10)];
      assert forall i :: 0 <= i < |s| - 1 ==> s[i] == Digits(n / 10)[i];
      s
  }

  /** The decimal text of an integer, as template literals render it. */
  function Decimal(n: int): string
  {
    if n < 0 then "-" + Digits(-n) else Digits(n)
  }

  lemma {:induction false} DigitsValueOfDigits(n: nat)
    ensures DigitsValue(Digits(n), 10) == n
    decreases n
  {
    if n >= 10 {
      DigitsValueOfDigits(n / 10);
      var s := Digits(n);
      assert s[..|s| - 1] == Digits(n / 10);
    }
  }

  /** The decimal text of an integer has no surrounding white space and is its
      magnitude's digits, after one '-' when negative. */
  lemma DecimalShape(n: int)
    ensures var s := Decimal(n);
      var m := if n < 0 then -n else n;
      TrimStart(s) == s && Trim(s) == s
      && (n < 0 ==> s[0] == '-' && s[1..] == Digits(m))
      && (n >= 0 ==> s == Digits(m))
  {
    var s := Decimal(n);
    var m := if n < 0 then -n else n;
    var d := Digits(m);
    DigitIsNoWhiteSpace(d[0]);
    DigitIsNoWhiteSpace(d[|d| - 1]);
    assert s[|s| - 1] == d[|d| - 1];
    if n < 0 {
      assert s[1..] == d;
    }
    TrimStartKeeps(s);
    assert TextStart(s, 0) == 0;
    assert TextEnd(s, 0, |s|) == |s|;
    assert s[0..|s|] == s;
  }

  lemma DigitIsNoWhiteSpace(c: char)
    requires DigitValue(c, 10).Some?
    ensures !IsWhiteSpace(c) && '0' <= c <= '9'
  {
  }

  lemma TrimStartKeeps(s: string)
    requires s != [] && !IsWhiteSpace(s[0])
    ensures TrimStart(s) == s
  {
  }

  /** Reading back the decimal text of an integer gives the integer. */
  lemma {:induction false} DecimalRoundTrip(n: int)
    ensures ToNumber(Decimal(n)) == Some(n)
  {
    var m := if n < 0 then -n else n;
    var s, d := Decimal(n), Digits(m);
    DecimalShape(n);
    DigitsValueOfDigits(m);
    assert Trim(s) == s;
    if n >= 0 {
      DigitIsNoWhiteSpace(d[0]);
      assert s[0] != '-' && s[0] != '+' && s == d;
    } else {
      assert s[0] == '-' && s[1..] == d;
    }
    assert NumberTrimmed(s) == Some(n);
  }

  lemma DigitPrefixOfDigits(d: string)
    requires AllDigits(d, 10)
    ensures DigitPrefix(d, 10) == d
  {
  }

  /** `parseInt` reads back the decimal text of every integer. */
  lemma ParseIntDecimal(n: int)
    ensures ParseInt(Decimal(n)) == Some(n)
  {
    var m := if n < 0 then -n else n;
    DecimalShape(n);
    DigitsValueOfDigits(m);
    var s := Decimal(n);
    var d := Digits(m);
    MagnitudeOfDigits(d);
    if n < 0 {
      ParseIntAfterMinus(s);
    } else {
      DigitIsNoWhiteSpace(d[0]);
      ParseIntAfterDigit(s);
    }
  }

  /** A character `Number` cannot read anywhere in its text: not white space,
      not a decimal digit and not a sign. */
  predicate IsStray(c: char)
  {
    !IsWhiteSpace(c) && DigitValue(c, 10).None? && c != '-' && c != '+'
  }

  /** `Number` of a text holding a stray character is NaN. */
  lemma {:induction false} ToNumberRejectsStray(s: string, i: nat)
    requires i < |s| && IsStray(s[i])
    ensures ToNumber(s).None?
  {
    var t := Trim(s);
    var lo := TextStart(s, 0);
    assert lo <= i < lo + |t|;
    assert t[i - lo] == s[i];
    var digits := if t[0] == '-' || t[0] == '+' then t[1..] else t;
    if t[0] == '-' || t[0] == '+' {
      assert digits[i - lo - 1] == s[i];
    } else {
      assert digits[i - lo] == s[i];
    }
  }

  /** `parseInt` skips leading white space, reads the decimal digits that
      follow and stops at the first character that is not one. */
  lemma {:induction false} ParseIntReadsLeadingDigits(ws: string, d: string, rest: string)
    requires forall i :: 0 <= i < |ws| ==> IsWhiteSpace(ws[i])
    requires d != [] && AllDigits(d, 10)
    requires rest == [] || DigitValue(rest[0], 10).None?
    requires d != "0" || rest == [] || (rest[0] != 'x' && rest[0] != 'X')
    ensures ParseInt(ws + d + rest) == Some(DigitsValue(d, 10))
  {
    var u := d + rest;
    assert ws + d + rest == ws + u;
    MagnitudeStops(d, rest);
    assert u[0] == d[0];
    ReadsUnsigned(ws, u);
  }

  /** A '-' in front of a text that starts with a digit negates what
      `parseInt` reads from it, after any leading white space. */
  lemma {:induction false} ParseIntAfterMinusNegates(ws: string, u: string)
    requires forall i :: 0 <= i < |ws| ==> IsWhiteSpace(ws[i])
    requires u != [] && DigitValue(u[0], 10).Some?
    ensures ParseInt(ws + ['-'] + u) == match ParseInt(u) case None => None case Some(v) => Some(-v)
  {
    var m := ['-'] + u;
    assert ws + ['-'] + u == ws + m;
    assert m[0] == '-' && m[1..] == u;
    ReadsNegated(ws, m);
    DigitIsNoWhiteSpace(u[0]);
    ParseIntAfterDigit(u);
  }

  lemma {:induction false} ReadsUnsigned(ws: string, u: string)
    requires forall i :: 0 <= i < |ws| ==> IsWhiteSpace(ws[i])
    requires u != [] && DigitValue(u[0], 10).Some?
    ensures ParseInt(ws + u) == match Magnitude(u) case None => None case Some(v) => Some(v as int)
  {
    DigitIsNoWhiteSpace(u[0]);
    ParseIntSkipsWhiteSpace(ws, u);
    ParseIntAfterDigit(u);
  }

  lemma {:induction false} ReadsNegated(ws: string, m: string)
    requires forall i :: 0 <= i < |ws| ==> IsWhiteSpace(ws[i])
    requires m != [] && m[0] == '-'
    ensures ParseInt(ws + m) == match Magnitude(m[1..]) case None => None case Some(v) => Some(-(v as int))
  {
    ParseIntSkipsWhiteSpace(ws, m);
    ParseIntAfterMinus(m);
  }

  /** `parseInt` skips the white space in front of the text. */
  lemma {:induction false} ParseIntSkipsWhiteSpace(ws: string, u: string)
    requires forall i :: 0 <= i < |ws| ==> IsWhiteSpace(ws[i])
    requires u != [] && !IsWhiteSpace(u[0])
    ensures ParseInt(ws + u) == ParseInt(u)
  {
    TrimStartSkips(ws, u);
    TrimStartKeeps(u);
  }

  /** Digits followed by a non-digit (and no hexadecimal prefix) are read up to
      the non-digit. */
  lemma {:induction false} MagnitudeStops(d: string, rest: string)
    requires d != [] && AllDigits(d, 10)
    requires rest == [] || DigitValue(rest[0], 10).None?
    requires d != "0" || rest == [] || (rest[0] != 'x' && rest[0] != 'X')
    ensures Magnitude(d + rest) == Some(DigitsValue(d, 10))
  {
    var u := d + rest;
    DigitPrefixStops(d, rest);
    if |d| >= 2 {
      DigitIsNoWhiteSpace(d[1]);
      assert u[1] == d[1];
    } else if rest != [] {
      assert u[1] == rest[0];
    }
  }

  /** Leading white space is skipped up to the first other character. */
  lemma {:induction false} TrimStartSkips(ws: string, u: string)
    requires forall i :: 0 <= i < |ws| ==> IsWhiteSpace(ws[i])
    requires u != [] && !IsWhiteSpace(u[0])
    ensures TrimStart(ws + u) == u
    decreases |ws|
  {
    if ws == [] {
      assert ws + u == u;
      TrimStartKeeps(u);
    } else {
      assert (ws + u)[1..] == ws[1..] + u;
      assert forall i :: 0 <= i < |ws| - 1 ==> ws[1..][i] == ws[i + 1];
      TrimStartSkips(ws[1..], u);
    }
  }

  /** The run of digits ends at the first character that is not a digit. */
  lemma {:induction false} DigitPrefixStops(d: string, rest: string)
    requires AllDigits(d, 10)
    requires rest == [] || DigitValue(rest[0], 10).None?
    ensures DigitPrefix(d + rest, 10) == d
    decreases |d|
  {
    if d == [] {
      assert d + rest == rest;
    } else {
      assert (d + rest)[0] == d[0];
      assert (d + rest)[1..] == d[1..] + rest;
      assert AllDigits(d[1..], 10) by {
        forall i | 0 <= i < |d| - 1 ensures DigitValue(d[1..][i], 10).Some? {
          assert d[1..][i] == d[i + 1];
        }
      }
      DigitPrefixStops(d[1..], rest);
    }
  }

  /** After a leading digit, `parseInt` is the magnitude of the whole text. */
  lemma ParseIntAfterDigit(s: string)
    requires s != [] && '0' <= s[0] <= '9'
    ensures ParseInt(s) == match Magnitude(s) case None => None case Some(v) => Some(v as int)
  {
    TrimStartKeeps(s);
  }

  /** After a leading '-', `parseInt` negates the magnitude of the rest. */
  lemma ParseIntAfterMinus(s: string)
    requires s != [] && s[0] == '-'
    ensures ParseInt(s) == match Magnitude(s[1..]) case None => None case Some(v) => Some(-(v as int))
  {
    TrimStartKeeps(s);
  }

  /** A run of decimal digits has no hexadecimal prefix and is read whole. */
  lemma MagnitudeOfDigits(d: string)
    requires d != [] && AllDigits(d, 10)
    ensures Magnitude(d) == Some(DigitsValue(d, 10))
  {
    if |d| >= 2 {
      DigitIsNoWhiteSpace(d[1]);
    }
    DigitPrefixOfDigits(d);
  }

  /** Lower-case of one character: ASCII capitals move down by 32, every other
      character is kept. */
  function LowerChar(c: char): (d: char)
    ensures 'A' <= c <= 'Z' ==> d as int == c as int + 32
    ensures !('A' <= c <= 'Z') ==> d == c
    ensures !('A' <= d <= 'Z')
  {
    if 'A' <= c <= 'Z' then (c as int + 32) as char else c
  }

  /** `s.toLowerCase()` on ASCII letters; other characters are kept. */
  function ToLower(s: string): (t: string)
    ensures |t| == |s| && forall i :: 0 <= i < |s| ==> t[i] == LowerChar(s[i])
  {
    seq(|s|, i requires 0 <= i < |s| => LowerChar(s[i]))
  }

  /** Lower-casing twice is lower-casing once. */
  lemma ToLowerIdempotent(s: string)
    ensures ToLower(ToLower(s)) == ToLower(s)
  {
  }
}
