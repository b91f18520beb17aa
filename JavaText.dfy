/** The few pieces of java.lang behaviour that the client's string building relies on, and a
    character search used by the readers that take those strings apart again. */
module JavaText {
  import opened Wrappers

  /** How string concatenation and StringBuilder.append render a possibly null String:
      null becomes the four characters "null". */
  function Text(s: Option<string>): (r: string)
    ensures s.Some? ==> r == s.value
    ensures s.None? ==> r == "null"
  {
    match s
    case None => "null"
    case Some(v) => v
  }

  function AsciiLower(c: char): char
  {
    if 'A' <= c <= 'Z' then (c as int - 'A' as int + 'a' as int) as char else c
  }

  /** `a.equalsIgnoreCase(b)`: false for a null `b`, otherwise equal lengths and equal
      characters after case folding (ASCII folding; see the README). */
  predicate EqualsIgnoreCase(a: string, b: Option<string>)
    ensures b == Some(a) ==> EqualsIgnoreCase(a, b)
    ensures EqualsIgnoreCase(a, b) ==> b.Some? && |b.value| == |a|
  {
    b.Some? && |a| == |b.value| && forall i :: 0 <= i < |a| ==> AsciiLower(a[i]) == AsciiLower(b.value[i])
  }

  /** The index of the first occurrence of c in s, or |s| when there is none. This is not
      String.indexOf (which gives -1): the client never searches a string, only the readers
      of its URLs and headers do. */
  function IndexOf(s: string, c: char): (k: nat)
    ensures k <= |s|
    ensures forall i :: 0 <= i < k ==> s[i] != c
    ensures k < |s| ==> s[k] == c
  {
    if s == [] || s[0] == c then 0 else 1 + IndexOf(s[1..], c)
  }

  /** In a text that starts with a part free of c, the first c is the tail's first c. */
  lemma {:induction false} IndexOfAfter(head: string, tail: string, c: char)
    requires forall i :: 0 <= i < |head| ==> head[i] != c
    ensures IndexOf(head + tail, c) == |head| + IndexOf(tail, c)
  {
    if head != [] {
      assert (head + tail)[1..] == head[1..] + tail;
      IndexOfAfter(head[1..], tail, c);
    } else {
      assert head + tail == tail;
    }
  }

  /** Two texts framed by the same prefix and suffix are equal when the framed texts are. */
  lemma SameFrame(prefix: string, a: string, b: string, suffix: string)
    requires prefix + a + suffix == prefix + b + suffix
    ensures a == b
  {
    var s := prefix + a + suffix;
    assert |a| == |b|;
    assert a == s[|prefix|..|prefix| + |a|];
    assert b == (prefix + b + suffix)[|prefix|..|prefix| + |b|];
  }

  function Digit(d: int): char
    requires 0 <= d < 10
  {
    ('0' as int + d) as char
  }

  /** The decimal digits of a natural number, without leading zeros. */
  function Digits(n: nat): (r: string)
    ensures |r| >= 1 && '0' <= r[0] <= '9'
    ensures |r| > 1 ==> r[0] != '0'
    ensures forall i :: 0 <= i < |r| ==> '0' <= r[i] <= '9'
    decreases n
  {
    if n < 10 then [Digit(n)] else Digits(n / 10) + [Digit(n % 10)]
  }

  /** Integer.toString, which is what `%s` prints for an int. */
  function Decimal(n: int): (r: string)
    ensures |r| >= 1
    ensures r[0] == '-' <==> n < 0
  {
    if n < 0 then "-" + Digits(-n) else Digits(n)
  }

  /** The number a string of decimal digits denotes, read left to right. */
  function DigitsValue(s: string): int
    requires forall i :: 0 <= i < |s| ==> '0' <= s[i] <= '9'
  {
    if s == [] then 0 else DigitsValue(s[..|s| - 1]) * 10 + (s[|s| - 1] as int - '0' as int)
  }

  /** Reading the digits back gives the number: the status printed in an error message
      determines the status. */
  lemma {:induction false} DigitsValueOfDigits(n: nat)
    ensures DigitsValue(Digits(n)) == n
    decreases n
  {
    if n >= 10 {
      var s := Digits(n);
      assert s[..|s| - 1] == Digits(n / 10);
      DigitsValueOfDigits(n / 10);
    }
  }

  lemma DigitsInjective(a: nat, b: nat)
    requires Digits(a) == Digits(b)
    ensures a == b
  {
    DigitsValueOfDigits(a);
    DigitsValueOfDigits(b);
  }

  /** Decimal is injective. */
  lemma DecimalInjective(m: int, n: int)
    requires Decimal(m) == Decimal(n)
    ensures m == n
  {
    if m < 0 {
      assert Digits(-m) == Decimal(m)[1..];
      DigitsInjective(-m, -n);
    } else {
      DigitsInjective(m, n);
    }
  }
}
