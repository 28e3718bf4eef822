/** The few JavaScript string and number primitives the core relies on, over
    integers: `Number.prototype.toString`, `parseInt(s, 10)`,
    `String.prototype.split` with a one-character separator and
    `String.prototype.lastIndexOf` for one character. */
module JsText {

  datatype Option<T> = None | Some(value: T)

  predicate IsDigit(c: char)
  {
    '0' <= c <= '9'
  }

  function DigitChar(d: nat): (c: char)
    requires d < 10
    ensures IsDigit(c)
  {
    ('0' as int + d) as char
  }

  function DigitValue(c: char): (d: nat)
    requires IsDigit(c)
    ensures d < 10 && DigitChar(d) == c
  {
    (c as int - '0' as int) as nat
  }

  /** Decimal digits of a natural number, most significant first, no leading zero. */
  function NatDigits(n: nat): (s: string)
    ensures 1 <= |s| && forall i :: 0 <= i < |s| ==> IsDigit(s[i])
  {
    if n < 10 then [DigitChar(n)] else NatDigits(n / 10) + [DigitChar(n % 10)]
  }

  /** `n.toString()` for an integral number. */
  function IntToString(n: int): string
  {
    if n < 0 then "-" + NatDigits(-n) else NatDigits(n)
  }

  /** The value of a string of decimal digits. */
  function DigitsValue(s: string): nat
    requires forall i :: 0 <= i < |s| ==> IsDigit(s[i])
  {
    if s == [] then 0 else 10 * DigitsValue(s[..|s| - 1]) + DigitValue(s[|s| - 1])
  }

  /** The white space `parseInt` skips before the number (the StrWhiteSpaceChar
      set of ECMAScript: white space and line terminators). */
  predicate IsJsWhiteSpace(c: char)
  {
    || c == '\t' || c == '\n' || c == '\U{B}' || c == '\U{C}' || c == '\r' || c == ' '
    || c == '\U{A0}' || c == '\U{1680}' || ('\U{2000}' <= c <= '\U{200A}')
    || c == '\U{2028}' || c == '\U{2029}' || c == '\U{202F}' || c == '\U{205F}'
    || c == '\U{3000}' || c == '\U{FEFF}'
  }

  function SkipWhiteSpace(s: string): (r: string)
    ensures |r| <= |s| && r == s[|s| - |r|..]
    ensures r != [] ==> !IsJsWhiteSpace(r[0])
  {
    if s != [] && IsJsWhiteSpace(s[0]) then SkipWhiteSpace(s[1..]) else s
  }

  /** Length of the longest prefix of `s` made of decimal digits. */
  function DigitRun(s: string): (n: nat)
    ensures n <= |s| && forall i :: 0 <= i < n ==> IsDigit(s[i])
    ensures n < |s| ==> !IsDigit(s[n])
  {
    if s != [] && IsDigit(s[0]) then 1 + DigitRun(s[1..]) else 0
  }

  /** `parseInt(s, 10)`: skip leading white space, read an optional sign, then
      the longest run of decimal digits; `None` stands for `NaN` (no digit). */
  function ParseInt(s: string): Option<int>
  {
    ParseSigned(SkipWhiteSpace(s))
  }

  function ParseSigned(t: string): Option<int>
  {
    if t != [] && t[0] == '-' then
      match ParseDigitRun(t[1..])
      case None => None
      case Some(v) => Some(-v)
    else if t != [] && t[0] == '+' then ParseDigitRun(t[1..])
    else ParseDigitRun(t)
  }

  /** The value of the leading run of digits, `None` when `u` does not start with one. */
  function ParseDigitRun(u: string): Option<int>
  {
    var n := DigitRun(u);
    if n == 0 then None else Some(DigitsValue(u[..n]))
  }

  lemma {:induction false} NatDigitsValue(n: nat)
    ensures DigitsValue(NatDigits(n)) == n
  {
    if n >= 10 {
      NatDigitsValue(n / 10);
      NatDigitsStep(n, n / 10, n % 10);
    }
  }

  /** One more digit: the value of the digits of `n = 10 * q + r` from the
      value of the digits of `q`. */
  lemma {:induction false} NatDigitsStep(n: nat, q: nat, r: nat)
    requires n >= 10 && n == 10 * q + r && r < 10
    requires DigitsValue(NatDigits(q)) == q
    ensures DigitsValue(NatDigits(n)) == n
  {
    assert n / 10 == q && n % 10 == r;
    var s := NatDigits(n);
    assert s == NatDigits(q) + [DigitChar(r)];
    assert s[..|s| - 1] == NatDigits(q);
    assert DigitValue(s[|s| - 1]) == r;
  }

  lemma {:induction false} DigitRunOfDigits(d: string, rest: string)
    requires forall i :: 0 <= i < |d| ==> IsDigit(d[i])
    requires rest == [] || !IsDigit(rest[0])
    ensures DigitRun(d + rest) == |d|
  {
    if d != [] {
      assert (d + rest)[1..] == d[1..] + rest;
      DigitRunOfDigits(d[1..], rest);
    } else {
      assert d + rest == rest;
    }
  }

  /** `parseInt` of digits followed by text that does not start with a digit. */
  lemma {:induction false} ParseDigits(d: string, rest: string)
    requires d != [] && forall i :: 0 <= i < |d| ==> IsDigit(d[i])
    requires rest == [] || !IsDigit(rest[0])
    ensures ParseInt(d + rest) == Some(DigitsValue(d))
  {
    var s := d + rest;
    assert s[0] == d[0];
    assert !IsJsWhiteSpace(s[0]);
    assert SkipWhiteSpace(s) == s;
    assert s[0] != '-' && s[0] != '+';
    DigitRunOfDigits(d, rest);
    assert DigitRun(s) == |d|;
    assert s[..|d|] == d;
  }

  /** The same after a minus sign. */
  lemma {:induction false} ParseNegativeDigits(d: string, rest: string)
    requires d != [] && forall i :: 0 <= i < |d| ==> IsDigit(d[i])
    requires rest == [] || !IsDigit(rest[0])
    ensures ParseInt("-" + (d + rest)) == Some(-(DigitsValue(d) as int))
  {
    var u := d + rest;
    var s := ['-'] + u;
    assert ParseDigitRun(u) == Some(DigitsValue(d)) by {
      DigitRunOfDigits(d, rest);
      assert u[..|d|] == d;
    }
    assert SkipWhiteSpace(s) == s by {
      assert s[0] == '-';
    }
    assert s[1..] == u;
    ParseMinus(s, DigitsValue(d));
  }

  lemma {:induction false} ParseMinus(s: string, v: int)
    requires s != [] && s[0] == '-' && ParseDigitRun(s[1..]) == Some(v)
    ensures ParseSigned(s) == Some(-v)
  {
  }

  /** `parseInt` reads back what `toString` wrote, whatever non-digit text follows. */
  lemma {:induction false} ParseIntToString(n: int, rest: string)
    requires rest == [] || !IsDigit(rest[0])
    ensures ParseInt(IntToString(n) + rest) == Some(n)
  {
    if n < 0 {
      var d := NatDigits(-n);
      assert IntToString(n) + rest == "-" + (d + rest) by {
        AppendAssoc("-", d, rest);
      }
      assert DigitsValue(d) == -n by {
        NatDigitsValue(-n);
      }
      ParseNegativeDigits(d, rest);
    } else {
      var d := NatDigits(n);
      assert IntToString(n) == d;
      assert DigitsValue(d) == n by {
        NatDigitsValue(n);
      }
      ParseDigits(d, rest);
    }
  }

  /** `parseInt(n.toString())` is `n`. */
  lemma {:induction false} ParseIntRoundTrip(n: int)
    ensures ParseInt(IntToString(n)) == Some(n)
  {
    ParseIntToString(n, []);
    assert IntToString(n) + [] == IntToString(n);
  }

  lemma {:induction false} AppendAssoc<T>(a: seq<T>, b: seq<T>, c: seq<T>)
    ensures a + b + c == a + (b + c)
  {
  }

  /** Index of the first `c` in `s`, or `|s|` when there is none. */
  function IndexOf(s: string, c: char): (i: nat)
    ensures i <= |s| && c !in s[..i]
    ensures i < |s| ==> s[i] == c
  {
    if s == [] then 0 else if s[0] == c then 0 else 1 + IndexOf(s[1..], c)
  }

  /** `s.split(c)`: the pieces between the occurrences of `c`; never empty. */
  function Split(s: string, c: char): (pieces: seq<string>)
    ensures |pieces| >= 1
    decreases |s|
  {
    var i := IndexOf(s, c);
    if i == |s| then [s] else [s[..i]] + Split(s[i + 1..], c)
  }

  /** `lastIndexOf(c)`: the index of the last `c` in `s`, or -1 when there is none. */
  function LastIndexOf(s: string, c: char): (i: int)
    ensures -1 <= i < |s|
    ensures i == -1 ==> c !in s
    ensures i >= 0 ==> s[i] == c && c !in s[i + 1..]
  {
    if s == [] then -1
    else if s[|s| - 1] == c then |s| - 1
    else
      var j := LastIndexOf(s[..|s| - 1], c);
      LastIndexOfStep(s, c, j);
      j
  }

  /** The last `c` of `s` is the last `c` of `s` without its final
      character, when that character is not `c`. */
  lemma {:induction false} LastIndexOfStep(s: string, c: char, j: int)
    requires s != [] && s[|s| - 1] != c && -1 <= j < |s| - 1
    requires j == -1 ==> c !in s[..|s| - 1]
    requires j >= 0 ==> c !in s[..|s| - 1][j + 1..]
    ensures j == -1 ==> c !in s
    ensures j >= 0 ==> c !in s[j + 1..]
  {
    if j == -1 {
      assert s == s[..|s| - 1] + [s[|s| - 1]];
    } else {
      assert s[j + 1..] == s[..|s| - 1][j + 1..] + [s[|s| - 1]];
    }
  }

  /** A piece without the separator splits into itself. */
  lemma {:induction false} SplitNoSeparator(s: string, c: char)
    requires c !in s
    ensures Split(s, c) == [s]
  {
  }

  /** Splitting distributes over a separator: `(a + c + b).split(c)` is
      `a.split(c)` followed by `b.split(c)`. */
  lemma {:induction false} SplitAround(a: string, c: char, b: string)
    ensures Split(a + [c] + b, c) == Split(a, c) + Split(b, c)
    decreases |a|
  {
    var s := a + [c] + b;
    var i := IndexOf(a, c);
    if i == |a| {
      assert s[..|a|] == a;
      assert IndexOf(s, c) == |a| by { IndexOfPrefix(s, c, |a|); }
      assert s[|a| + 1..] == b;
      assert Split(s, c) == [a] + Split(b, c);
      assert Split(a, c) == [a];
    } else {
      var a' := a[i + 1..];
      assert s[..i] == a[..i];
      assert IndexOf(s, c) == i by { IndexOfPrefix(s, c, i); }
      assert s[i + 1..] == a' + [c] + b;
      assert Split(s, c) == [a[..i]] + Split(a' + [c] + b, c);
      SplitAround(a', c, b);
      assert Split(a, c) == [a[..i]] + Split(a', c);
      AppendAssoc([a[..i]], Split(a', c), Split(b, c));
    }
  }

  lemma {:induction false} IndexOfPrefix(s: string, c: char, k: nat)
    requires k < |s| && s[k] == c && c !in s[..k]
    ensures IndexOf(s, c) == k
    decreases k
  {
    if k > 0 {
      assert s[1..][..k - 1] == s[1..k];
      IndexOfPrefix(s[1..], c, k - 1);
    }
  }
}
