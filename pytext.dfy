/**
 * The Python string operations the pipeline relies on: `str.isspace`, `str.strip`,
 * ASCII case mapping, `str.endswith`, `sep.join(...)`, `s.split(sep)` with a one-character
 * separator, and `str(int)`.
 */
module PyText {

  /** Python's `str.isspace` for one character (the characters `str.strip()` removes). */
  predicate IsSpace(c: char)
  {
    || c == ' '
    || ('\t' <= c <= '\r')
    || ('\U{1C}' <= c <= '\U{1F}')
    || c == '\U{85}' || c == '\U{A0}' || c == '\U{1680}'
    || ('\U{2000}' <= c <= '\U{200A}')
    || c == '\U{2028}' || c == '\U{2029}' || c == '\U{202F}' || c == '\U{205F}' || c == '\U{3000}'
  }

  predicate IsUpper(c: char)
  {
    'A' <= c <= 'Z'
  }

  /** Lower-case mapping of one character, for the ASCII letters. */
  function Lower(c: char): (r: char)
    ensures !IsUpper(r)
    ensures IsUpper(c) ==> r as int == c as int + 32
    ensures !IsUpper(c) ==> r == c
  {
    if IsUpper(c) then (c as int + 32) as char else c
  }

  /** `s.lower()` restricted to ASCII letters. */
  function LowerAll(s: string): (r: string)
    ensures |r| == |s|
    ensures forall i :: 0 <= i < |s| ==> r[i] == Lower(s[i])
  {
    seq(|s|, i requires 0 <= i < |s| => Lower(s[i]))
  }

  predicate EndsWith(s: string, suffix: string)
  {
    |suffix| <= |s| && s[|s| - |suffix|..] == suffix
  }

  /** `s.lstrip()`: drops the leading whitespace. */
  function LStrip(s: string): (r: string)
    ensures |r| <= |s| && r == s[|s| - |r|..]
    ensures r == [] || !IsSpace(r[0])
    ensures forall i :: 0 <= i < |s| - |r| ==> IsSpace(s[i])
    decreases |s|
  {
    if |s| > 0 && IsSpace(s[0]) then LStrip(s[1..]) else s
  }

  /** `s.rstrip()`: drops the trailing whitespace. */
  function RStrip(s: string): (r: string)
    ensures |r| <= |s| && r == s[..|r|]
    ensures r == [] || !IsSpace(r[|r| - 1])
    ensures forall i :: |r| <= i < |s| ==> IsSpace(s[i])
    decreases |s|
  {
    if |s| > 0 && IsSpace(s[|s| - 1]) then RStrip(s[..|s| - 1]) else s
  }

  /** `s.strip()`: the infix of `s` left once the whitespace at both ends is gone. */
  function Strip(s: string): (r: string)
    ensures exists i, j :: 0 <= i <= j <= |s| && r == s[i..j]
              && (forall k :: 0 <= k < i ==> IsSpace(s[k]))
              && (forall k :: j <= k < |s| ==> IsSpace(s[k]))
    ensures r == [] || (!IsSpace(r[0]) && !IsSpace(r[|r| - 1]))
  {
    var l := LStrip(s);
    var r := RStrip(l);
    var i := |s| - |l|;
    assert r == s[i..i + |r|];
    r
  }

  /** A string that starts and ends with a non-space character is left alone by `strip`. */
  lemma StripKeepsTrimmed(s: string)
    requires s == [] || (!IsSpace(s[0]) && !IsSpace(s[|s| - 1]))
    ensures Strip(s) == s
  {
  }

  /** `strip` is idempotent. */
  lemma StripIdempotent(s: string)
    ensures Strip(Strip(s)) == Strip(s)
  {
    StripKeepsTrimmed(Strip(s));
  }

  /** `strip` keeps only characters of its input. */
  lemma StripKeepsOut(s: string, c: char)
    requires c !in s
    ensures c !in Strip(s)
  {
    var i, j :| 0 <= i <= j <= |s| && Strip(s) == s[i..j];
    assert forall k :: 0 <= k < j - i ==> Strip(s)[k] == s[i + k];
  }

  /** A single leading blank in front of an already stripped string `x` is removed by `strip`. */
  lemma StripLeadingBlank(x: string, blanked: string)
    requires Strip(x) == x && blanked == " " + x
    ensures Strip(blanked) == x
  {
    assert blanked[1..] == x && IsSpace(blanked[0]);
    assert LStrip(blanked) == LStrip(x);
    StripUnfold(blanked);
    StripUnfold(x);
  }

  lemma StripUnfold(s: string)
    ensures Strip(s) == RStrip(LStrip(s))
  {
  }

  /** Whitespace on both sides of a string with non-space ends is exactly what `strip` removes. */
  lemma StripPadded(pre: string, x: string, post: string, s: string)
    requires forall k :: 0 <= k < |pre| ==> IsSpace(pre[k])
    requires forall k :: 0 <= k < |post| ==> IsSpace(post[k])
    requires |x| > 0 && !IsSpace(x[0]) && !IsSpace(x[|x| - 1])
    requires s == pre + x + post
    ensures Strip(s) == x
  {
    LStripSpaces(pre, x + post);
    assert s == pre + (x + post);
    RStripSpaces(x, post);
  }

  lemma {:induction false} LStripSpaces(pre: string, y: string)
    requires forall k :: 0 <= k < |pre| ==> IsSpace(pre[k])
    requires |y| > 0 && !IsSpace(y[0])
    ensures LStrip(pre + y) == y
  {
    if |pre| > 0 {
      assert forall k :: 0 <= k < |pre| - 1 ==> pre[1..][k] == pre[k + 1];
      LStripSpaces(pre[1..], y);
      assert (pre + y)[1..] == pre[1..] + y;
      LStripStep(pre + y, pre[1..] + y, y);
    } else {
      assert pre + y == y;
    }
  }

  lemma LStripStep(s: string, t: string, y: string)
    requires |s| > 0 && IsSpace(s[0]) && s[1..] == t && LStrip(t) == y
    ensures LStrip(s) == y
  {
  }

  lemma {:induction false} RStripSpaces(y: string, post: string)
    requires forall k :: 0 <= k < |post| ==> IsSpace(post[k])
    requires |y| > 0 && !IsSpace(y[|y| - 1])
    ensures RStrip(y + post) == y
  {
    if |post| > 0 {
      RStripSpaces(y, post[..|post| - 1]);
      assert (y + post)[..|y + post| - 1] == y + post[..|post| - 1];
    } else {
      assert y + post == y;
    }
  }

  /** `sub in s` for strings. */
  predicate Contains(s: string, sub: string)
    decreases |s|
  {
    (|sub| <= |s| && s[..|sub|] == sub) || (|s| > 0 && Contains(s[1..], sub))
  }

  /** `sep.join(xs)`. */
  function Join(sep: string, xs: seq<string>): string
  {
    if |xs| == 0 then "" else if |xs| == 1 then xs[0] else xs[0] + sep + Join(sep, xs[1..])
  }

  /** `s.split(sep)` for a one-character separator: the pieces between the separators. */
  function Split(s: string, sep: char): (r: seq<string>)
    ensures |r| >= 1
    ensures forall i :: 0 <= i < |r| ==> sep !in r[i]
    ensures Join([sep], r) == s
    decreases |s|
  {
    if |s| == 0 then [""]
    else
      var rest := Split(s[1..], sep);
      if s[0] == sep then
        assert Join([sep], [""] + rest) == "" + [sep] + Join([sep], rest);
        [""] + rest
      else
        var r := [[s[0]] + rest[0]] + rest[1..];
        assert Join([sep], r) == s by {
          if |rest| > 1 {
            assert rest == [rest[0]] + rest[1..];
            assert r[1..] == rest[1..];
          }
        }
        r
  }

  /** Splitting at a separator between two texts splits each text on its own side. */
  lemma {:induction false} SplitAppend(a: string, sep: char, b: string)
    ensures Split(a + [sep] + b, sep) == Split(a, sep) + Split(b, sep)
    decreases |a|
  {
    var t := a + [sep] + b;
    if |a| == 0 {
      assert t == [sep] + b;
      assert t[1..] == b;
    } else {
      SplitAppend(a[1..], sep, b);
      SplitAppendStep(a, sep, b);
    }
  }

  lemma SplitAppendStep(a: string, sep: char, b: string)
    requires |a| > 0 && Split(a[1..] + [sep] + b, sep) == Split(a[1..], sep) + Split(b, sep)
    ensures Split(a + [sep] + b, sep) == Split(a, sep) + Split(b, sep)
  {
    var t := a + [sep] + b;
    assert t[1..] == a[1..] + [sep] + b;
    if a[0] == sep {
      SepStep(t, a, sep, Split(a[1..], sep), Split(b, sep));
    } else {
      CharStep(t, a, sep, Split(a[1..], sep), Split(b, sep));
    }
  }

  lemma SepStep(t: string, a: string, sep: char, rest: seq<string>, tail: seq<string>)
    requires |a| > 0 && |t| > 0 && t[0] == a[0] == sep
    requires rest == Split(a[1..], sep) && Split(t[1..], sep) == rest + tail
    ensures Split(t, sep) == Split(a, sep) + tail
  {
    SplitAtSeparator(t, sep);
    SplitAtSeparator(a, sep);
    EmptyHeadAppend(Split(t, sep), Split(a, sep), rest, tail);
  }

  lemma EmptyHeadAppend(st: seq<string>, sa: seq<string>, rest: seq<string>, tail: seq<string>)
    requires st == [""] + (rest + tail) && sa == [""] + rest
    ensures st == sa + tail
  {
  }

  lemma CharStep(t: string, a: string, sep: char, rest: seq<string>, tail: seq<string>)
    requires |a| > 0 && |t| > 0 && t[0] == a[0] != sep
    requires rest == Split(a[1..], sep) && Split(t[1..], sep) == rest + tail
    ensures Split(t, sep) == Split(a, sep) + tail
  {
    SplitAtChar(t, sep);
    SplitAtChar(a, sep);
    CharHeadAppend(Split(t, sep), Split(a, sep), Split(t[1..], sep), rest, tail, [a[0]]);
  }

  lemma CharHeadAppend(st: seq<string>, sa: seq<string>, whole: seq<string>, rest: seq<string>, tail: seq<string>, c: string)
    requires whole == rest + tail && |rest| > 0
    requires st == [c + whole[0]] + whole[1..] && sa == [c + rest[0]] + rest[1..]
    ensures st == sa + tail
  {
    ConsHead(rest, tail, c);
  }

  lemma ConsHead(xs: seq<string>, ys: seq<string>, c: string)
    requires |xs| > 0
    ensures [c + (xs + ys)[0]] + (xs + ys)[1..] == [c + xs[0]] + xs[1..] + ys
  {
  }

  lemma SplitAtSeparator(s: string, sep: char)
    requires |s| > 0 && s[0] == sep
    ensures Split(s, sep) == [""] + Split(s[1..], sep)
  {
  }

  lemma SplitAtChar(s: string, sep: char)
    requires |s| > 0 && s[0] != sep
    ensures Split(s, sep) == [[s[0]] + Split(s[1..], sep)[0]] + Split(s[1..], sep)[1..]
  {
  }

  /** Splitting a piece without separators, followed by the separator, yields that piece first. */
  lemma {:induction false} SplitPrefix(x: string, sep: char, rest: string)
    requires sep !in x
    ensures Split(x + [sep] + rest, sep) == [x] + Split(rest, sep)
    decreases |x|
  {
    var t := x + [sep] + rest;
    if |x| > 0 {
      assert t[1..] == x[1..] + [sep] + rest;
      SplitPrefix(x[1..], sep, rest);
      SplitAtChar(t, sep);
      PrefixHead(Split(t, sep), Split(t[1..], sep), x, Split(rest, sep));
    } else {
      assert t == [sep] + rest && t[1..] == rest;
      SplitAtSeparator(t, sep);
    }
  }

  lemma PrefixHead(st: seq<string>, whole: seq<string>, x: string, tail: seq<string>)
    requires |x| > 0 && whole == [x[1..]] + tail
    requires st == [[x[0]] + whole[0]] + whole[1..]
    ensures st == [x] + tail
  {
    assert [x[0]] + x[1..] == x;
  }

  /** Splitting a piece without separators yields that piece alone. */
  lemma {:induction false} SplitNoSeparator(x: string, sep: char)
    requires sep !in x
    ensures Split(x, sep) == [x]
    decreases |x|
  {
    if |x| > 0 {
      SplitNoSeparator(x[1..], sep);
      assert [x[0]] + x[1..] == x;
    }
  }

  /** Split undoes join when no piece holds the separator, for any text equal to the join. */
  lemma SplitJoined(text: string, xs: seq<string>, sep: char)
    requires |xs| >= 1 && text == Join([sep], xs)
    requires forall i :: 0 <= i < |xs| ==> sep !in xs[i]
    ensures Split(text, sep) == xs
  {
    SplitJoin(xs, sep);
  }

  /** Round trip: split undoes join when no piece holds the separator. */
  lemma {:induction false} SplitJoin(xs: seq<string>, sep: char)
    requires |xs| >= 1
    requires forall i :: 0 <= i < |xs| ==> sep !in xs[i]
    ensures Split(Join([sep], xs), sep) == xs
  {
    if |xs| == 1 {
      SplitNoSeparator(xs[0], sep);
    } else {
      SplitJoin(xs[1..], sep);
      SplitPrefix(xs[0], sep, Join([sep], xs[1..]));
      assert [xs[0]] + xs[1..] == xs;
    }
  }

  function DigitChar(d: nat): (c: char)
    requires d < 10
    ensures '0' <= c <= '9' && c as int - '0' as int == d
  {
    "0123456789"[d]
  }

  predicate AllDigits(s: string)
  {
    forall i :: 0 <= i < |s| ==> '0' <= s[i] <= '9'
  }

  /** The number a string of decimal digits denotes. */
  function DigitsValue(s: string): nat
    requires AllDigits(s)
  {
    if s == [] then 0 else DigitsValue(s[..|s| - 1]) * 10 + (s[|s| - 1] as int - '0' as int)
  }

  /** `str(n)` for a natural number: its decimal digits, without leading zeros. */
  function NatToStr(n: nat): (r: string)
    ensures |r| >= 1 && AllDigits(r)
    ensures r[0] == '0' ==> n == 0
    decreases n
  {
    if n < 10 then [DigitChar(n)] else NatToStr(n / 10) + [DigitChar(n % 10)]
  }

  /** Reading back the digits of `str(n)` gives `n`. */
  lemma {:induction false} NatToStrRoundTrip(n: nat)
    ensures DigitsValue(NatToStr(n)) == n
    decreases n
  {
    if n >= 10 {
      NatToStrRoundTrip(n / 10);
      var s := NatToStr(n);
      assert s[..|s| - 1] == NatToStr(n / 10);
    }
  }

  /** `str(i)` for a Python int. */
  function IntToStr(i: int): (r: string)
    ensures |r| >= 1
    ensures (r[0] == '-') <==> i < 0
  {
    if i < 0 then "-" + NatToStr(-i) else NatToStr(i)
  }
}
