/** Text helpers shared by every editor page: optional patch fields, the
    decimal rendering of numbers that JavaScript template strings perform,
    Array.prototype.join, and the ASCII case mapping used on preset names. */
module Common {

  datatype Option<T> = None | Some(value: T)

  /** The value of a `Partial<T>` patch field, or the current value when the
      patch leaves the field out (the `{ ...k, ...updates }` spread). */
  function Patched<T>(o: Option<T>, current: T): (r: T)
    ensures o.Some? ==> r == o.value
    ensures o.None? ==> r == current
  {
    match o
    case Some(v) => v
    case None => current
  }

  /** All elements pairwise different; used for record ids. */
  predicate Distinct<T(==)>(s: seq<T>) {
    forall i, j :: 0 <= i < j < |s| ==> s[i] != s[j]
  }

  // ---------------------------------------------------------------------
  // Decimal text of integers
  // ---------------------------------------------------------------------

  predicate IsDigit(c: char) {
    '0' <= c <= '9'
  }

  predicate AllDigits(s: string) {
    forall i :: 0 <= i < |s| ==> IsDigit(s[i])
  }

  function DigitValue(c: char): (d: nat)
    requires IsDigit(c)
    ensures d < 10
  {
    c as int - '0' as int
  }

  function DigitChar(d: nat): (c: char)
    requires d < 10
    ensures IsDigit(c) && DigitValue(c) == d
  {
    (d + '0' as int) as char
  }

  /** Canonical decimal text of a natural number: digits only, no leading zero. */
  function NatToString(n: nat): (s: string)
    ensures 1 <= |s| && AllDigits(s)
    ensures |s| > 1 ==> s[0] != '0'
    ensures n < 10 <==> |s| == 1
  {
    if n < 10 then [DigitChar(n)] else NatToString(n / 10) + [DigitChar(n % 10)]
  }

  /** Decimal text of an integer as JavaScript's `${n}` prints it (for
      magnitudes below 10^21): a minus sign for negative numbers, then the digits. */
  function IntToString(n: int): (s: string)
    ensures 1 <= |s|
    ensures n < 0 <==> s[0] == '-'
    ensures n >= 0 ==> s == NatToString(n)
    ensures n < 0 ==> s[1..] == NatToString(-n)
  {
    if n < 0 then "-" + NatToString(-n) else NatToString(n)
  }

  /** The value denoted by a string of decimal digits. */
  function ParseNat(s: string): nat
    requires 1 <= |s| && AllDigits(s)
  {
    if |s| == 1 then DigitValue(s[0])
    else ParseNat(s[..|s| - 1]) * 10 + DigitValue(s[|s| - 1])
  }

  predicate IsIntText(s: string) {
    if 1 <= |s| && s[0] == '-' then 2 <= |s| && AllDigits(s[1..])
    else 1 <= |s| && AllDigits(s)
  }

  function ParseInt(s: string): int
    requires IsIntText(s)
  {
    if s[0] == '-' then 0 - ParseNat(s[1..]) as int else ParseNat(s)
  }

  lemma {:induction false} ParseNatToString(n: nat)
    ensures ParseNat(NatToString(n)) == n
  {
    if n >= 10 {
      var s := NatToString(n);
      assert s[..|s| - 1] == NatToString(n / 10);
      ParseNatToString(n / 10);
    }
  }

  /** Reading back the text of an integer gives the integer. */
  lemma IntToStringRoundTrip(n: int)
    ensures IsIntText(IntToString(n))
    ensures ParseInt(IntToString(n)) == n
  {
    if n < 0 {
      ParseNatToString(-n);
    } else {
      ParseNatToString(n);
    }
  }

  /** Different integers print differently. */
  lemma IntToStringInjective(a: int, b: int)
    ensures IntToString(a) == IntToString(b) ==> a == b
  {
    IntToStringRoundTrip(a);
    IntToStringRoundTrip(b);
  }

  /** Past its first character, the text of an integer is all digits. */
  lemma IntToStringTail(n: int, k: int)
    requires 1 <= k < |IntToString(n)|
    ensures IsDigit(IntToString(n)[k])
  {
    if n < 0 {
      assert IntToString(n)[k] == IntToString(n)[1..][k - 1];
    }
  }

  /** An integer followed by text that does not start with a digit can be read
      back unambiguously: the number and the text after it are both determined. */
  lemma IntTextCancel(a: int, b: int, x: string, y: string)
    requires IntToString(a) + x == IntToString(b) + y
    requires 1 <= |x| && !IsDigit(x[0])
    requires 1 <= |y| && !IsDigit(y[0])
    ensures a == b && x == y
  {
    var u, v := IntToString(a), IntToString(b);
    if |u| < |v| {
      assert (u + x)[|u|] == x[0] && (v + y)[|u|] == v[|u|];
      IntToStringTail(b, |u|);
      assert false;
    } else if |v| < |u| {
      assert (v + y)[|v|] == y[0] && (u + x)[|v|] == u[|v|];
      IntToStringTail(a, |v|);
      assert false;
    }
    assert u == (u + x)[..|u|] && v == (v + y)[..|v|];
    assert x == (u + x)[|u|..] && y == (v + y)[|v|..];
    IntToStringInjective(a, b);
  }

  // ---------------------------------------------------------------------
  // Reading generated text back
  // ---------------------------------------------------------------------

  predicate EndsWith(text: string, suffix: string) {
    |suffix| <= |text| && text[|text| - |suffix|..] == suffix
  }

  lemma EndsWithAppend(a: string, b: string)
    ensures EndsWith(a + b, b)
  {
    assert (a + b)[|a|..] == b;
  }

  lemma EndsWithExtend(a: string, b: string, suffix: string)
    requires EndsWith(b, suffix)
    ensures EndsWith(a + b, suffix)
  {
    assert (a + b)[|a + b| - |suffix|..] == b[|b| - |suffix|..];
  }

  /** A text has the same k-th last character as any of its suffixes. */
  lemma EndsWithChar(text: string, suffix: string, k: int)
    requires EndsWith(text, suffix) && 1 <= k <= |suffix|
    ensures text[|text| - k] == suffix[|suffix| - k]
  {
    assert text[|text| - |suffix|..][|suffix| - k] == text[|text| - k];
  }

  /** Two suffixes whose k-th last characters differ cannot both end a text. */
  lemma EndsWithDiffer(text: string, a: string, b: string, k: int)
    requires EndsWith(text, a) && 1 <= k <= |a| && k <= |b|
    requires a[|a| - k] != b[|b| - k]
    ensures !EndsWith(text, b)
  {
    EndsWithChar(text, a, k);
    if EndsWith(text, b) {
      EndsWithChar(text, b, k);
    }
  }

  /** A suffix of a suffix is a suffix. */
  lemma EndsWithTrans(text: string, mid: string, suffix: string)
    requires EndsWith(text, mid) && EndsWith(mid, suffix)
    ensures EndsWith(text, suffix)
  {
    assert text[|text| - |suffix|..] == mid[|mid| - |suffix|..];
  }

  /** A text ends with its own last character. */
  lemma LastCharEndsWith(text: string, c: char)
    requires |text| >= 1 && text[|text| - 1] == c
    ensures EndsWith(text, [c])
  {
  }

  /** A text cannot end with two suffixes whose last characters differ. */
  lemma EndsWithClash(text: string, a: string, b: string)
    requires EndsWith(text, a) && |a| >= 1 && |b| >= 1 && a[|a| - 1] != b[|b| - 1]
    ensures !EndsWith(text, b)
  {
    EndsWithChar(text, a, 1);
    if |b| <= |text| {
      assert text[|text| - |b|..][|b| - 1] == text[|text| - 1];
    }
  }

  lemma AppendThree(a: string, b: string, c: string, d: string)
    ensures a + b + c + d == a + (b + c + d)
  {
  }

  lemma Regroup(pre: string, u: string, x: string, r: string)
    ensures pre + u + x + r == pre + (u + (x + r))
  {
  }

  lemma Assoc(a: string, b: string, c: string)
    ensures a + b + c == a + (b + c)
  {
  }

  /** Equal texts with the same beginning are equal after it. */
  lemma DropPrefix(pre: string, m: string, n: string)
    requires pre + m == pre + n
    ensures m == n
  {
    assert (pre + m)[|pre|..] == m;
    assert (pre + n)[|pre|..] == n;
  }

  /** Equal texts with the same ending are equal before it. */
  lemma DropSuffix(m: string, n: string, post: string)
    requires m + post == n + post
    ensures m == n
  {
    assert (m + post)[..|m|] == m;
    assert (n + post)[..|n|] == n;
  }

  /** Two texts framed by the same beginning and ending are equal exactly
      when what lies between is. */
  lemma Framed(pre: string, m: string, n: string, post: string)
    ensures pre + m + post == pre + n + post <==> m == n
  {
    if pre + m + post == pre + n + post {
      DropSuffix(pre + m, pre + n, post);
      DropPrefix(pre, m, n);
    }
  }

  /** When one text is a proper prefix of the other's beginning, the
      character that follows it also occurs in the longer one. */
  lemma NextCharIn(a: string, x: string, b: string, y: string)
    requires a + x == b + y && |a| < |b| && |x| >= 1
    ensures x[0] in b
  {
    assert b[|a|] == (b + y)[|a|];
    assert (a + x)[|a|] == x[0];
  }

  /** Texts that both stop at their first `c` are equal when their
      continuations are: the `c` marks where each ends. */
  lemma StopAt(a: string, x: string, b: string, y: string, c: char)
    requires a + x == b + y && c !in a && c !in b
    requires |x| >= 1 && x[0] == c && |y| >= 1 && y[0] == c
    ensures a == b
  {
    if |a| < |b| {
      NextCharIn(a, x, b, y);
    } else if |b| < |a| {
      NextCharIn(b, y, a, x);
    } else {
      assert (a + x)[..|a|] == a;
      assert (b + y)[..|b|] == b;
    }
  }

  /** Texts that share a beginning and then differ in their next character differ. */
  lemma FirstDiffers(pre: string, x: string, y: string, r1: string, r2: string)
    requires |x| >= 1 && |y| >= 1 && x[0] != y[0]
    ensures pre + x + r1 != pre + y + r2
  {
    assert (pre + x + r1)[|pre|] == x[0];
    assert (pre + y + r2)[|pre|] == y[0];
  }

  /** A decimal text holds only digits and a leading minus sign. */
  lemma IntTextChars(n: int)
    ensures forall i :: 0 <= i < |IntToString(n)| ==> IsDigit(IntToString(n)[i]) || IntToString(n)[i] == '-'
  {
    var s := IntToString(n);
    if n < 0 {
      forall i | 1 <= i < |s| ensures IsDigit(s[i]) {
        assert s[i] == s[1..][i - 1];
      }
    }
  }

  lemma IntTextWithout(n: int, c: char)
    requires !IsDigit(c) && c != '-'
    ensures c !in IntToString(n)
  {
    IntTextChars(n);
  }

  /** A slider value's text holds only digits, a minus sign and a point. */
  lemma CentiTextWithout(v: int, c: char)
    requires !IsDigit(c) && c != '-' && c != '.'
    ensures c !in CentiText(v)
  {
    var a := if v < 0 then -v else v;
    var m, n, f := if v < 0 then "-" else "", NatToString(a / 100), FractionText(a % 100);
    assert CentiText(v) == m + n + f;
  }

  /** Reading one number back out of generated text: the same text before,
      an integer, then text that does not start with a digit determine the
      integer and everything that follows it. */
  lemma PeelNumber(pre: string, a: int, b: int, x: string, y: string, ra: string, rb: string)
    requires pre + IntToString(a) + x + ra == pre + IntToString(b) + y + rb
    requires 1 <= |x| && !IsDigit(x[0]) && 1 <= |y| && !IsDigit(y[0])
    ensures a == b && x + ra == y + rb
  {
    var u, v := IntToString(a), IntToString(b);
    Regroup(pre, u, x, ra);
    Regroup(pre, v, y, rb);
    DropPrefix(pre, u + (x + ra), v + (y + rb));
    IntTextCancel(a, b, x + ra, y + rb);
  }

  // ---------------------------------------------------------------------
  // Fixed-point numbers in hundredths
  // ---------------------------------------------------------------------

  function FractionText(f: nat): (s: string)
    requires f < 100
  {
    if f == 0 then ""
    else if f % 10 == 0 then "." + [DigitChar(f / 10)]
    else "." + [DigitChar(f / 10), DigitChar(f % 10)]
  }

  /** Text of the number c/100 as JavaScript prints a slider value such as
      1.1, 0.05 or 1: the shortest decimal, without trailing zeros. */
  function CentiText(c: int): (s: string)
    ensures 1 <= |s|
    ensures c % 100 == 0 ==> s == IntToString(c / 100)
    ensures c < 0 <==> s[0] == '-'
  {
    var a := if c < 0 then -c else c;
    var s := (if c < 0 then "-" else "") + NatToString(a / 100) + FractionText(a % 100);
    assert c % 100 == 0 && c < 0 ==> a / 100 == -(c / 100);
    s
  }

  // ---------------------------------------------------------------------
  // Array.prototype.join
  // ---------------------------------------------------------------------

  /** `parts.join(sep)`: the parts in order with `sep` between neighbours. */
  function Join(parts: seq<string>, sep: string): (r: string)
    ensures |parts| == 0 ==> r == ""
    ensures |parts| == 1 ==> r == parts[0]
  {
    if |parts| == 0 then ""
    else if |parts| == 1 then parts[0]
    else Join(parts[..|parts| - 1], sep) + sep + parts[|parts| - 1]
  }

  /** A character in neither the parts nor the separator is not in their join. */
  lemma {:induction false} JoinWithout(parts: seq<string>, sep: string, c: char)
    requires c !in sep && forall i :: 0 <= i < |parts| ==> c !in parts[i]
    ensures c !in Join(parts, sep)
  {
    if |parts| > 1 {
      JoinWithout(parts[..|parts| - 1], sep, c);
    }
  }

  /** Joining two non-empty lists is joining their joins. */
  lemma {:induction false} JoinConcat(xs: seq<string>, ys: seq<string>, sep: string)
    requires |xs| >= 1 && |ys| >= 1
    ensures Join(xs + ys, sep) == Join(xs, sep) + sep + Join(ys, sep)
  {
    if |ys| == 1 {
      assert (xs + ys)[..|xs + ys| - 1] == xs;
    } else {
      var ys' := ys[..|ys| - 1];
      assert (xs + ys)[..|xs + ys| - 1] == xs + ys';
      JoinConcat(xs, ys', sep);
    }
  }

  /** Appending one part to a non-empty join adds the separator and the part. */
  lemma JoinSnoc(xs: seq<string>, x: string, sep: string)
    requires |xs| >= 1
    ensures Join(xs + [x], sep) == Join(xs, sep) + sep + x
  {
    assert (xs + [x])[..|xs|] == xs;
  }

  /** A join of at least one part ends with the last part. */
  lemma JoinEndsWith(parts: seq<string>, sep: string)
    requires |parts| >= 1
    ensures EndsWith(Join(parts, sep), parts[|parts| - 1])
  {
    if |parts| > 1 {
      EndsWithAppend(Join(parts[..|parts| - 1], sep) + sep, parts[|parts| - 1]);
    }
  }

  /** A join of at least one part starts with the first part. */
  lemma {:induction false} JoinStartsWith(parts: seq<string>, sep: string)
    requires |parts| >= 1
    ensures |Join(parts, sep)| >= |parts[0]| && Join(parts, sep)[..|parts[0]|] == parts[0]
  {
    if |parts| > 1 {
      var init := parts[..|parts| - 1];
      JoinStartsWith(init, sep);
      assert init[0] == parts[0];
    }
  }

  // ---------------------------------------------------------------------
  // Case mapping and replacement
  // ---------------------------------------------------------------------

  function LowerChar(c: char): char {
    if 'A' <= c <= 'Z' then (c as int - 'A' as int + 'a' as int) as char else c
  }

  function UpperChar(c: char): char {
    if 'a' <= c <= 'z' then (c as int - 'a' as int + 'A' as int) as char else c
  }

  /** `s.toLowerCase()` on ASCII letters. */
  function ToLower(s: string): (r: string)
    ensures |r| == |s|
    ensures forall i :: 0 <= i < |s| ==> r[i] == LowerChar(s[i])
  {
    if |s| == 0 then "" else [LowerChar(s[0])] + ToLower(s[1..])
  }

  /** `s.toUpperCase()` on ASCII letters. */
  function ToUpper(s: string): (r: string)
    ensures |r| == |s|
    ensures forall i :: 0 <= i < |s| ==> r[i] == UpperChar(s[i])
  {
    if |s| == 0 then "" else [UpperChar(s[0])] + ToUpper(s[1..])
  }

  /** Position of the first occurrence of `c` in `s`, or |s| when there is none. */
  function IndexOf(s: string, c: char): (i: nat)
    ensures i <= |s|
    ensures c !in s[..i]
    ensures i < |s| ==> s[i] == c
    ensures i == |s| <==> c !in s
  {
    if |s| == 0 then 0
    else if s[0] == c then 0
    else
      var i := 1 + IndexOf(s[1..], c);
      assert s[..i] == [s[0]] + s[1..][..i - 1];
      i
  }

  /** `s.replace(from, to)` with a one-character string pattern: JavaScript
      replaces only the first occurrence. */
  function ReplaceFirst(s: string, from: char, to: char): (r: string)
    ensures |r| == |s|
    ensures from !in s ==> r == s
    ensures from in s ==> r[IndexOf(s, from)] == to
    ensures forall k :: 0 <= k < |s| && k != IndexOf(s, from) ==> r[k] == s[k]
  {
    var i := IndexOf(s, from);
    if i == |s| then s else s[..i] + [to] + s[i + 1..]
  }

  /** Replacing the first `c` of `a + [c] + b`, where `a` has none, gives `a + [d] + b`. */
  lemma ReplaceFirstAt(a: string, c: char, b: string, d: char)
    requires c !in a
    ensures ReplaceFirst(a + [c] + b, c, d) == a + [d] + b
  {
    var s := a + [c] + b;
    var i := IndexOf(s, c);
    assert s[..|a|] == a && s[|a|] == c;
    assert forall j :: 0 <= j < |a| ==> s[j] == a[j];
    assert s[..|a| + 1][|a|] == c;
    assert i == |a|;
    assert s[|a| + 1..] == b;
  }
}
