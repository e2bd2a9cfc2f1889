/**
 * The string primitives the client relies on: `parseInt`, `Number#toString(16)`,
 * `Buffer#toString('hex')`, `String#split` and `String#indexOf`.
 */
module Text {
  import opened Wrappers
  import opened Bytes

  /** The value of `c` as a digit of a radix up to 36, in either case, as `parseInt` reads it. */
  function DigitValue(c: char): Option<nat>
  {
    if '0' <= c <= '9' then Some(c as int - '0' as int)
    else if 'a' <= c <= 'z' then Some(c as int - 'a' as int + 10)
    else if 'A' <= c <= 'Z' then Some(c as int - 'A' as int + 10)
    else None
  }

  predicate IsDigit(c: char, radix: nat) {
    DigitValue(c).Some? && DigitValue(c).value < radix
  }

  predicate AllDigits(s: string, radix: nat) {
    forall i :: 0 <= i < |s| ==> IsDigit(s[i], radix)
  }

  /** The number a string of digits denotes, most significant digit first. */
  function DigitsValue(s: string, radix: nat): nat
    requires AllDigits(s, radix)
  {
    if s == [] then 0
    else DigitsValue(s[..|s| - 1], radix) * radix + DigitValue(s[|s| - 1]).value
  }

  /** The length of the longest prefix of `s` made of digits. */
  function DigitRun(s: string, radix: nat): (n: nat)
    ensures n <= |s| && AllDigits(s[..n], radix)
    ensures n < |s| ==> !IsDigit(s[n], radix)
  {
    if s == [] || !IsDigit(s[0], radix) then 0
    else
      var n := 1 + DigitRun(s[1..], radix);
      assert s[..n] == [s[0]] + s[1..][..n - 1];
      n
  }

  /**
   * `parseInt(s, radix)` on text without sign, blanks or `0x`: the value of the
   * longest prefix of digits; `None` stands for `NaN` (no leading digit).
   */
  function ParseInt(s: string, radix: nat): (r: Option<nat>)
    ensures r.None? <==> s == [] || !IsDigit(s[0], radix)
    ensures s != [] && AllDigits(s, radix) ==> r == Some(DigitsValue(s, radix))
  {
    var n := DigitRun(s, radix);
    assert AllDigits(s, radix) ==> n == |s|;
    assert n == |s| ==> s[..n] == s;
    if n == 0 then None else Some(DigitsValue(s[..n], radix))
  }

  /** The lowercase hexadecimal digit for `d`. */
  function HexDigit(d: int): (c: char)
    requires 0 <= d < 16
    ensures IsDigit(c, 16) && DigitValue(c) == Some(d)
    ensures c != ':' && c != '-'
  {
    if d < 10 then ('0' as int + d) as char else ('a' as int + d - 10) as char
  }

  /** `n.toString(16)` for a non-negative integer: lowercase, no padding. */
  function ToHex(n: nat): (s: string)
    ensures |s| >= 1 && AllDigits(s, 16) && DigitsValue(s, 16) == n
  {
    if n < 16 then [HexDigit(n)]
    else
      var s := ToHex(n / 16) + [HexDigit(n % 16)];
      assert s[..|s| - 1] == ToHex(n / 16);
      s
  }

  /** `buffer.toString('hex')`: two lowercase digits per byte. */
  function BytesToHex(b: seq<Byte>): (s: string)
    ensures |s| == 2 * |b| && AllDigits(s, 16) && DigitsValue(s, 16) == BytesValue(b)
  {
    if b == [] then []
    else
      var last := b[|b| - 1];
      var front := BytesToHex(b[..|b| - 1]);
      var s := front + [HexDigit(last / 16), HexDigit(last % 16)];
      assert s[..|s| - 1][..|s| - 2] == front;
      s
  }

  function Count(s: string, sep: char): nat {
    if s == [] then 0 else (if s[0] == sep then 1 else 0) + Count(s[1..], sep)
  }

  /** `parts.join(sep)`. */
  function Join(parts: seq<string>, sep: char): string
    requires |parts| >= 1
  {
    if |parts| == 1 then parts[0] else parts[0] + [sep] + Join(parts[1..], sep)
  }

  /**
   * `s.split(sep)`: one more part than there are separators, no part holds
   * the separator, and joining the parts with it gives `s` back.
   */
  function Split(s: string, sep: char): (parts: seq<string>)
    ensures |parts| == Count(s, sep) + 1
    ensures forall i :: 0 <= i < |parts| ==> sep !in parts[i]
    ensures Join(parts, sep) == s
  {
    if s == [] then [[]]
    else if s[0] == sep then [[]] + Split(s[1..], sep)
    else
      var rest := Split(s[1..], sep);
      var parts := [[s[0]] + rest[0]] + rest[1..];
      assert parts[1..] == rest[1..];
      parts
  }

  /** Text without the separator before one is its own first part. */
  lemma {:induction false} SplitAfter(a: string, sep: char, b: string)
    requires sep !in a
    ensures Split(a + [sep] + b, sep) == [a] + Split(b, sep)
  {
    if a != [] {
      var x := a + [sep] + b;
      SplitAfter(a[1..], sep, b);
      assert x[0] == a[0] && x[0] != sep;
      assert x[1..] == a[1..] + [sep] + b;
      var rest := Split(x[1..], sep);
      assert rest == [a[1..]] + Split(b, sep);
      assert [a[0]] + a[1..] == a;
    } else {
      assert a + [sep] + b == [sep] + b;
    }
  }

  /** Splitting a join of separator-free parts gives the parts back. */
  lemma {:induction false} SplitJoin(parts: seq<string>, sep: char)
    requires |parts| >= 1
    requires forall i :: 0 <= i < |parts| ==> sep !in parts[i]
    ensures Split(Join(parts, sep), sep) == parts
  {
    if |parts| == 1 {
      SplitWhole(parts[0], sep);
    } else {
      SplitJoin(parts[1..], sep);
      SplitAfter(parts[0], sep, Join(parts[1..], sep));
    }
  }

  lemma {:induction false} SplitWhole(a: string, sep: char)
    requires sep !in a
    ensures Split(a, sep) == [a]
  {
    if a != [] {
      SplitWhole(a[1..], sep);
    }
  }

  predicate OccursAt(text: string, pattern: string, j: nat) {
    j + |pattern| <= |text| && text[j..j + |pattern|] == pattern
  }

  /**
   * `text.indexOf(pattern, from)`: the first position at or after `from`
   * where `pattern` occurs, or -1 when there is none.
   */
  function IndexOf(text: string, pattern: string, from: nat): (r: int)
    ensures r == -1 || (from <= r && r + |pattern| <= |text| && text[r..r + |pattern|] == pattern)
    ensures forall j :: from <= j && (r == -1 || j < r) ==> !OccursAt(text, pattern, j)
    decreases |text| - from
  {
    if from + |pattern| > |text| then -1
    else if text[from..from + |pattern|] == pattern then from
    else IndexOf(text, pattern, from + 1)
  }

  /** `s` with every `sep` replaced by `sub`. */
  function Replace(s: string, sep: char, sub: char): (r: string)
    ensures |r| == |s|
    ensures forall i :: 0 <= i < |s| ==> r[i] == if s[i] == sep then sub else s[i]
  {
    seq(|s|, i requires 0 <= i < |s| => if s[i] == sep then sub else s[i])
  }

  /** `s.split(sep).join(sub)` replaces every `sep` with `sub`. */
  lemma {:induction false} JoinSplit(s: string, sep: char, sub: char)
    ensures Join(Split(s, sep), sub) == Replace(s, sep, sub)
  {
    if s != [] {
      JoinSplit(s[1..], sep, sub);
      var rest := Split(s[1..], sep);
      assert Replace(s, sep, sub) == [if s[0] == sep then sub else s[0]] + Replace(s[1..], sep, sub);
      if s[0] == sep {
        assert Split(s, sep) == [[]] + rest;
        JoinCons([], rest, sub);
      } else {
        assert Split(s, sep) == [[s[0]] + rest[0]] + rest[1..];
        JoinHead(s[0], rest, sub);
      }
    }
  }

  lemma JoinCons(p: string, rest: seq<string>, sep: char)
    requires |rest| >= 1
    ensures Join([p] + rest, sep) == p + [sep] + Join(rest, sep)
  {
    assert ([p] + rest)[1..] == rest;
  }

  /** Putting a character before the first part puts it before the join. */
  lemma JoinHead(c: char, parts: seq<string>, sep: char)
    requires |parts| >= 1
    ensures Join([[c] + parts[0]] + parts[1..], sep) == [c] + Join(parts, sep)
  {
    var q := [[c] + parts[0]] + parts[1..];
    if |parts| > 1 {
      assert q[1..] == parts[1..];
      assert Join(q, sep) == [c] + (parts[0] + [sep] + Join(parts[1..], sep));
    }
  }
}
