/** The string operations the other modules share: splitting at a separator,
    its inverse, and decimal numerals. */
module Strings {

  function Split(s: string, sep: char): (parts: seq<string>)
    ensures |parts| >= 1
  {
    if s == "" then [""]
    else
      var rest := Split(s[1..], sep);
      if s[0] == sep then [""] + rest else [[s[0]] + rest[0]] + rest[1..]
  }

  function Join(parts: seq<string>, sep: char): string
    requires |parts| >= 1
  {
    if |parts| == 1 then parts[0] else parts[0] + [sep] + Join(parts[1..], sep)
  }

  /** Split with a bound on the number of parts; the last part keeps its separators. */
  function SplitN(s: string, sep: char, n: nat): (parts: seq<string>)
    requires n >= 1
    ensures 1 <= |parts| <= n
  {
    var all := Split(s, sep);
    if |all| <= n then all else all[..n - 1] + [Join(all[n - 1..], sep)]
  }

  predicate HasPrefix(s: string, prefix: string) {
    |prefix| <= |s| && s[..|prefix|] == prefix
  }

  ghost predicate AllFree(parts: seq<string>, sep: char) {
    forall i | 0 <= i < |parts| :: sep !in parts[i]
  }

  lemma {:induction false} JoinSplit(s: string, sep: char)
    ensures Join(Split(s, sep), sep) == s
    ensures AllFree(Split(s, sep), sep)
  {
    if s != "" {
      JoinSplit(s[1..], sep);
      var rest := Split(s[1..], sep);
      if s[0] == sep {
        assert ([""] + rest)[1..] == rest;
      } else {
        assert Split(s, sep)[1..] == rest[1..];
      }
      assert s == [s[0]] + s[1..];
    }
  }

  lemma {:induction false} SplitFree(s: string, sep: char)
    requires sep !in s
    ensures Split(s, sep) == [s]
  {
    if s != "" {
      SplitFree(s[1..], sep);
      assert s == [s[0]] + s[1..];
    }
  }

  lemma {:induction false} SplitMany(s: string, sep: char)
    requires sep in s
    ensures |Split(s, sep)| >= 2
  {
    if s[0] != sep {
      SplitMany(s[1..], sep);
    }
  }

  /** The first part of a string that starts with a separator-free piece is that piece. */
  lemma {:induction false} SplitCons(head: string, tail: string, sep: char)
    requires sep !in head
    ensures Split(head + [sep] + tail, sep) == [head] + Split(tail, sep)
  {
    var s := head + [sep] + tail;
    if head == "" {
      assert s[1..] == tail;
    } else {
      SplitCons(head[1..], tail, sep);
      assert s[1..] == head[1..] + [sep] + tail;
      assert head == [head[0]] + head[1..];
    }
  }

  lemma {:induction false} SplitJoin(parts: seq<string>, sep: char)
    requires |parts| >= 1 && AllFree(parts, sep)
    ensures Split(Join(parts, sep), sep) == parts
  {
    if |parts| == 1 {
      SplitFree(parts[0], sep);
    } else {
      SplitJoin(parts[1..], sep);
      SplitCons(parts[0], Join(parts[1..], sep), sep);
    }
  }

  /** A text is determined by what stands before and after its last separator. */
  lemma LastSeparator(x: string, p: string, y: string, q: string, sep: char)
    requires sep !in p && sep !in q && x + [sep] + p == y + [sep] + q
    ensures x == y && p == q
  {
    var s := x + [sep] + p;
    assert s[|x|] == sep && s[|y|] == sep;
    assert forall i | 0 <= i < |p| :: s[|x| + 1 + i] == p[i];
    assert forall i | 0 <= i < |q| :: s[|y| + 1 + i] == q[i];
    assert |x| == |y|;
    assert s[..|x|] == x && s[..|y|] == y;
    assert s[|x| + 1..] == p && s[|y| + 1..] == q;
  }

  lemma {:induction false} JoinSnoc(parts: seq<string>, last: string, sep: char)
    requires |parts| >= 1
    ensures Join(parts + [last], sep) == Join(parts, sep) + [sep] + last
  {
    if |parts| == 1 {
      assert (parts + [last])[1..] == [last];
    } else {
      assert (parts + [last])[1..] == parts[1..] + [last];
      JoinSnoc(parts[1..], last, sep);
    }
  }

  /** Splitting and joining again all but the last part cuts at the last separator. */
  lemma SplitLast(before: string, after: string, sep: char)
    requires sep !in after
    ensures var parts := Split(before + [sep] + after, sep);
            && |parts| >= 2 && Join(parts[..|parts| - 1], sep) == before && parts[|parts| - 1] == after
  {
    var s := before + [sep] + after;
    var parts := Split(s, sep);
    assert s[|before|] == sep;
    SplitMany(s, sep);
    JoinSplit(s, sep);
    var front, last := parts[..|parts| - 1], parts[|parts| - 1];
    assert parts == front + [last];
    JoinSnoc(front, last, sep);
    LastSeparator(before, after, Join(front, sep), last, sep);
  }

  function Digit(d: nat): char
    requires d < 10
  {
    "0123456789"[d]
  }

  /** The decimal numeral of a natural number, without leading zeros. */
  function Decimal(n: nat): (s: string)
    ensures s != "" && '-' !in s
  {
    if n < 10 then [Digit(n)] else Decimal(n / 10) + [Digit(n % 10)]
  }

  predicate Digits(s: string) {
    forall c | c in s :: '0' <= c <= '9'
  }

  /** What a numeral says. */
  function Value(s: string): nat
    requires Digits(s)
    decreases |s|
  {
    if s == "" then 0
    else
      var n := |s| - 1;
      assert s[n] in s && forall c | c in s[..n] :: c in s;
      10 * Value(s[..n]) + (s[n] as int - '0' as int)
  }

  lemma DigitValue(d: nat)
    requires d < 10
    ensures '0' <= Digit(d) <= '9' && Digit(d) as int - '0' as int == d
  {
  }

  lemma {:induction false} DecimalValue(n: nat)
    ensures Digits(Decimal(n)) && Value(Decimal(n)) == n
    ensures n > 0 ==> Decimal(n)[0] != '0'
    ensures n < 10 <==> |Decimal(n)| == 1
    decreases n
  {
    DigitValue(n % 10);
    var s := Decimal(n);
    if n >= 10 {
      DecimalValue(n / 10);
    }
    assert s[..|s| - 1] == if n >= 10 then Decimal(n / 10) else "";
  }

  lemma {:induction false} DecimalInjective(m: nat, n: nat)
    requires Decimal(m) == Decimal(n)
    ensures m == n
    decreases m
  {
    var s := Decimal(m);
    if m >= 10 && n >= 10 {
      assert Decimal(m / 10) == s[..|s| - 1] == Decimal(n / 10);
      DecimalInjective(m / 10, n / 10);
      assert Digit(m % 10) == s[|s| - 1] == Digit(n % 10);
    }
  }
}
