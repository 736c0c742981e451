/**
 * The string operations of Python's `str` that the CRM relies on, over
 * `seq<char>`: prefix tests, substring search, left-to-right `replace`,
 * ASCII lower-casing, whitespace splitting and stripping, digit filtering,
 * and decimal rendering of integers. Only ASCII is given a case or a
 * digit class; `str.isdigit` and `str.lower` on other scripts are not modelled.
 */
module Text {

  predicate IsDigit(c: char) {
    '0' <= c <= '9'
  }

  predicate IsUpper(c: char) {
    'A' <= c <= 'Z'
  }

  /** ASCII characters Python's `str.split()` and `str.strip()` treat as whitespace. */
  predicate IsSpace(c: char) {
    c == ' ' || 9 <= c as int <= 13 || 28 <= c as int <= 31
  }

  /** A character a phone cleaner keeps: an ASCII digit or `+`. */
  predicate IsDialChar(c: char) {
    IsDigit(c) || c == '+'
  }

  predicate StartsWith(s: string, prefix: string) {
    |prefix| <= |s| && s[..|prefix|] == prefix
  }

  predicate OccursAt(s: string, pattern: string, i: int) {
    0 <= i && i + |pattern| <= |s| && s[i..i + |pattern|] == pattern
  }

  /** Python's `pattern in s`. */
  predicate Contains(s: string, pattern: string) {
    exists i | 0 <= i <= |s| - |pattern| :: OccursAt(s, pattern, i)
  }

  lemma OccursAtWitness(s: string, pattern: string, i: int)
    requires OccursAt(s, pattern, i)
    ensures Contains(s, pattern)
  {
  }

  lemma ContainsChar(s: string, c: char)
    ensures Contains(s, [c]) <==> c in s
  {
    if c in s {
      var i :| 0 <= i < |s| && s[i] == c;
      assert OccursAt(s, [c], i);
    }
    if Contains(s, [c]) {
      var i :| OccursAt(s, [c], i);
      assert OccursAt(s, [c], i);
      assert s[i] == s[i..i + 1][0];
    }
  }

  /**
   * Python's `s.replace(pattern, repl)` for a non-empty pattern: the leftmost
   * occurrence is replaced and scanning resumes after it.
   */
  function Replace(s: string, pattern: string, repl: string): string
    requires |pattern| > 0
    decreases |s|
  {
    if |s| < |pattern| then s
    else if s[..|pattern|] == pattern then repl + Replace(s[|pattern|..], pattern, repl)
    else [s[0]] + Replace(s[1..], pattern, repl)
  }

  /** A replacement whose pattern does not occur changes nothing. */
  lemma {:induction false} ReplaceAbsent(s: string, pattern: string, repl: string)
    requires |pattern| > 0
    requires !Contains(s, pattern)
    ensures Replace(s, pattern, repl) == s
    decreases |s|
  {
    if |s| < |pattern| {
    } else {
      if s[..|pattern|] == pattern {
        assert OccursAt(s, pattern, 0);
      }
      if Contains(s[1..], pattern) {
        var i :| OccursAt(s[1..], pattern, i);
        assert OccursAt(s[1..], pattern, i);
        assert s[i + 1..i + 1 + |pattern|] == s[1..][i..i + |pattern|];
        assert OccursAt(s, pattern, i + 1);
      }
      ReplaceAbsent(s[1..], pattern, repl);
      assert [s[0]] + s[1..] == s;
    }
  }

  /** A character absent from both the input and the replacement stays absent. */
  lemma {:induction false} ReplaceKeepsAbsent(s: string, pattern: string, repl: string, d: char)
    requires |pattern| > 0 && d !in s && d !in repl
    ensures d !in Replace(s, pattern, repl)
    decreases |s|
  {
    if |s| < |pattern| {
    } else if s[..|pattern|] == pattern {
      assert forall x | x in s[|pattern|..] :: x in s;
      ReplaceKeepsAbsent(s[|pattern|..], pattern, repl, d);
    } else {
      assert forall x | x in s[1..] :: x in s;
      ReplaceKeepsAbsent(s[1..], pattern, repl, d);
    }
  }

  /** Replacing a single character by a text without it removes every occurrence. */
  lemma {:induction false} ReplaceCharRemoves(s: string, c: char, repl: string)
    requires c !in repl
    ensures c !in Replace(s, [c], repl)
    decreases |s|
  {
    if |s| >= 1 {
      ReplaceCharRemoves(s[1..], c, repl);
      if s[..1] != [c] {
        assert s[0] == s[..1][0];
      }
    }
  }

  lemma AbsentNoDouble(s: string, c: char)
    requires c !in s
    ensures NoDouble(s, c)
  {
  }

  /** When `repl` lacks `c`, a result starting with `c` comes from an input starting with `c`. */
  lemma {:induction false} ReplaceFirstChar(t: string, c: char, repl: string)
    requires c !in repl
    requires |Replace(t, [c, c], repl)| > 0 && Replace(t, [c, c], repl)[0] == c
    ensures |t| > 0 && t[0] == c
  {
    if |t| < 2 {
    } else if t[..2] == [c, c] {
      assert t[0] == t[..2][0];
    } else {
    }
  }

  /** No two adjacent characters of `s` are both `c`. */
  predicate NoDouble(s: string, c: char) {
    forall i | 0 <= i < |s| - 1 :: !(s[i] == c && s[i + 1] == c)
  }

  lemma NoDoubleNotContains(s: string, c: char)
    requires NoDouble(s, c)
    ensures !Contains(s, [c, c])
  {
    forall i | 0 <= i <= |s| - 2
      ensures !OccursAt(s, [c, c], i)
    {
      assert s[i..i + 2][0] == s[i] && s[i..i + 2][1] == s[i + 1];
    }
  }

  lemma NoDoubleConcat(a: string, b: string, c: char)
    requires NoDouble(a, c) && NoDouble(b, c)
    requires |a| > 0 && |b| > 0 ==> !(a[|a| - 1] == c && b[0] == c)
    ensures NoDouble(a + b, c)
  {
    var ab := a + b;
    forall i | 0 <= i < |ab| - 1
      ensures !(ab[i] == c && ab[i + 1] == c)
    {
      if i < |a| - 1 {
        assert ab[i] == a[i] && ab[i + 1] == a[i + 1];
      } else if i >= |a| {
        assert ab[i] == b[i - |a|] && ab[i + 1] == b[i - |a| + 1];
      } else {
        assert ab[i] == a[|a| - 1] && ab[i + 1] == b[0];
      }
    }
  }

  /**
   * Replacing every `cc` by a text free of `c` leaves no `cc` behind: the
   * left-to-right scan cannot leave two adjacent `c`s unmatched.
   */
  lemma {:induction false} ReplacePairNoDouble(s: string, c: char, repl: string)
    requires c !in repl
    ensures NoDouble(Replace(s, [c, c], repl), c)
    decreases |s|
  {
    var p := [c, c];
    if |s| < 2 {
    } else if s[..2] == p {
      var rest := Replace(s[2..], p, repl);
      ReplacePairNoDouble(s[2..], c, repl);
      if |repl| > 0 {
        assert repl[|repl| - 1] in repl;
      }
      NoDoubleConcat(repl, rest, c);
    } else {
      var rest := Replace(s[1..], p, repl);
      ReplacePairNoDouble(s[1..], c, repl);
      assert s[..2] == [s[0], s[1]];
      if |rest| > 0 && rest[0] == c {
        ReplaceFirstChar(s[1..], c, repl);
      }
      NoDoubleConcat([s[0]], rest, c);
    }
  }

  lemma ReplacePairRemovesAll(s: string, c: char, repl: string)
    requires c !in repl
    ensures !Contains(Replace(s, [c, c], repl), [c, c])
  {
    ReplacePairNoDouble(s, c, repl);
    NoDoubleNotContains(Replace(s, [c, c], repl), c);
  }

  function LowerChar(c: char): (r: char)
    ensures !IsUpper(r)
  {
    if IsUpper(c) then (c as int + 32) as char else c
  }

  /** Python's `str.lower()` restricted to ASCII letters. */
  function Lower(s: string): (r: string)
    ensures |r| == |s|
    ensures forall i | 0 <= i < |s| :: r[i] == LowerChar(s[i])
  {
    seq(|s|, i requires 0 <= i < |s| => LowerChar(s[i]))
  }

  /** `''.join(c for c in s if c.isdigit() or c == '+')`. */
  function DialChars(s: string): (r: string)
    ensures |r| <= |s|
    ensures forall i | 0 <= i < |r| :: IsDialChar(r[i])
  {
    if s == [] then []
    else (if IsDialChar(s[0]) then [s[0]] else []) + DialChars(s[1..])
  }

  lemma {:induction false} DialCharsConcat(a: string, b: string)
    ensures DialChars(a + b) == DialChars(a) + DialChars(b)
    decreases |a|
  {
    if a == [] {
      assert a + b == b;
    } else {
      assert (a + b)[1..] == a[1..] + b;
      DialCharsConcat(a[1..], b);
    }
  }

  /** Cleaning a string that is already clean returns it unchanged. */
  lemma {:induction false} DialCharsOfClean(s: string)
    requires forall i | 0 <= i < |s| :: IsDialChar(s[i])
    ensures DialChars(s) == s
    decreases |s|
  {
    if s != [] {
      DialCharsOfClean(s[1..]);
    }
  }

  /** Number of leading non-whitespace characters. */
  function WordLength(s: string): (n: nat)
    ensures n <= |s|
    ensures |s| > 0 && !IsSpace(s[0]) ==> n > 0
    ensures forall i | 0 <= i < n :: !IsSpace(s[i])
  {
    if s == [] || IsSpace(s[0]) then 0 else 1 + WordLength(s[1..])
  }

  /** Python's `str.split()` with no separator: maximal runs of non-whitespace. */
  function Words(s: string): (r: seq<string>)
    ensures forall i | 0 <= i < |r| :: |r[i]| > 0 && forall c | c in r[i] :: c in s
    decreases |s|
  {
    if s == [] then []
    else if IsSpace(s[0]) then Words(s[1..])
    else
      var n := WordLength(s);
      [s[..n]] + Words(s[n..])
  }

  function TrimStart(s: string): (r: string)
    ensures |r| <= |s| && r == s[|s| - |r|..]
    ensures |r| > 0 ==> !IsSpace(r[0])
  {
    if s != [] && IsSpace(s[0]) then TrimStart(s[1..]) else s
  }

  function TrimEnd(s: string): (r: string)
    ensures |r| <= |s| && r == s[..|r|]
    ensures |r| > 0 ==> !IsSpace(r[|r| - 1])
  {
    if s != [] && IsSpace(s[|s| - 1]) then TrimEnd(s[..|s| - 1]) else s
  }

  /** Python's `str.strip()`. */
  function Strip(s: string): string {
    TrimEnd(TrimStart(s))
  }

  function DigitChar(d: nat): (c: char)
    requires d < 10
    ensures IsDigit(c)
  {
    ('0' as int + d) as char
  }

  function DigitValue(c: char): (d: nat)
    requires IsDigit(c)
    ensures d < 10 && DigitChar(d) == c
  {
    c as int - '0' as int
  }

  /** Decimal rendering of a natural number, as Python's `str(n)`. */
  function NatToString(n: nat): (r: string)
    ensures |r| > 0
    ensures forall i | 0 <= i < |r| :: IsDigit(r[i])
  {
    if n < 10 then [DigitChar(n)] else NatToString(n / 10) + [DigitChar(n % 10)]
  }

  /** Decimal rendering of an integer, as Python's `str(i)` or an f-string. */
  function IntToString(i: int): string {
    if i < 0 then "-" + NatToString(-i) else NatToString(i)
  }

  /** Value of a string of decimal digits. */
  function ParseNat(s: string): nat
    requires forall i | 0 <= i < |s| :: IsDigit(s[i])
  {
    if s == [] then 0 else ParseNat(s[..|s| - 1]) * 10 + DigitValue(s[|s| - 1])
  }

  /** Parsing a rendered number gives the number back. */
  lemma {:induction false} ParseNatToString(n: nat)
    ensures ParseNat(NatToString(n)) == n
  {
    if n >= 10 {
      var s := NatToString(n);
      assert s[..|s| - 1] == NatToString(n / 10);
      ParseNatToString(n / 10);
    }
  }
}
