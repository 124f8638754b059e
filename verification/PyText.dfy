/**
 The pieces of Python text handling the other modules lean on: decimal numerals, the order
 `sorted` puts on strings, and the search for a name or id that nobody uses yet.
 */
module PyText {

  // ---- decimal numerals -------------------------------------------------------------

  function DigitChar(d: nat): char
    requires d < 10
  {
    '0' + d as char
  }

  predicate IsDigit(c: char) {
    '0' <= c <= '9'
  }

  predicate AllDigits(s: string) {
    forall i | 0 <= i < |s| :: IsDigit(s[i])
  }

  /** The text of a number, as an f-string prints it. */
  function Decimal(n: nat): (s: string)
    ensures |s| > 0
  {
    if n < 10 then [DigitChar(n)] else Decimal(n / 10) + [DigitChar(n % 10)]
  }

  /** The number a run of digits stands for. */
  function NatOf(s: string): nat
    requires AllDigits(s)
  {
    if s == "" then 0 else NatOf(s[..|s| - 1]) * 10 + (s[|s| - 1] - '0') as nat
  }

  lemma {:induction false} DecimalReadsBack(n: nat)
    ensures AllDigits(Decimal(n)) && NatOf(Decimal(n)) == n
  {
    if n < 10 {
      assert Decimal(n)[..0] == "";
    } else {
      DecimalReadsBack(n / 10);
      var s := Decimal(n);
      assert s[..|s| - 1] == Decimal(n / 10);
    }
  }

  lemma DecimalInjective(m: nat, n: nat)
    requires Decimal(m) == Decimal(n)
    ensures m == n
  {
    DecimalReadsBack(m);
    DecimalReadsBack(n);
  }

  // ---- lower case, of ASCII letters --------------------------------------------------

  function LowerChar(c: char): char {
    if 'A' <= c <= 'Z' then c - 'A' + 'a' else c
  }

  function Lower(s: string): string {
    seq(|s|, i requires 0 <= i < |s| => LowerChar(s[i]))
  }

  // ---- the order of strings ---------------------------------------------------------

  /** Python's `<=` on strings: code point by code point, a prefix first. */
  predicate Leq(a: string, b: string) {
    a == "" || (b != "" && (a[0] < b[0] || (a[0] == b[0] && Leq(a[1..], b[1..]))))
  }

  lemma {:induction false} LeqTotal(a: string, b: string)
    ensures Leq(a, b) || Leq(b, a)
    ensures Leq(a, b) && Leq(b, a) ==> a == b
  {
    if a != "" && b != "" && a[0] == b[0] {
      LeqTotal(a[1..], b[1..]);
      assert a == [a[0]] + a[1..] && b == [b[0]] + b[1..];
    }
  }

  lemma {:induction false} LeqTransitive(a: string, b: string, c: string)
    requires Leq(a, b) && Leq(b, c)
    ensures Leq(a, c)
  {
    if a != "" && a[0] == b[0] == c[0] {
      LeqTransitive(a[1..], b[1..], c[1..]);
    }
  }

  /** The order goes by the first character that differs, and a prefix comes first. */
  lemma {:induction false} LeqIsLexicographic(a: string, b: string) returns (i: nat)
    ensures i <= |a| && i <= |b| && a[..i] == b[..i]
    ensures i == |a| || (i < |b| && a[i] != b[i]) || i == |b|
    ensures Leq(a, b) <==> i == |a| || (i < |b| && a[i] < b[i])
  {
    i := 0;
    if a != "" && b != "" && a[0] == b[0] {
      var j := LeqIsLexicographic(a[1..], b[1..]);
      i := j + 1;
      assert a[..i] == [a[0]] + a[1..][..j] && b[..i] == [b[0]] + b[1..][..j];
    }
  }

  predicate IsLeast(m: string, s: set<string>) {
    m in s && forall x | x in s :: Leq(m, x)
  }

  lemma {:induction false} LeastExists(s: set<string>)
    requires s != {}
    ensures exists m :: IsLeast(m, s)
  {
    var x :| x in s;
    if s == {x} {
      LeqTotal(x, x);
      assert IsLeast(x, s);
    } else {
      var rest := s - {x};
      LeastExists(rest);
      var m :| IsLeast(m, rest);
      LeqTotal(x, x);
      LeqTotal(x, m);
      forall y | y in s && Leq(x, m) ensures Leq(x, y) {
        if y != x { LeqTransitive(x, m, y); }
      }
      assert IsLeast(if Leq(x, m) then x else m, s);
    }
  }

  /** The first string of `sorted(s)`. */
  function Least(s: set<string>): (m: string)
    requires s != {}
    ensures IsLeast(m, s)
  {
    LeastExists(s);
    assert forall m, m' | IsLeast(m, s) && IsLeast(m', s) :: m == m' by {
      forall m, m' | IsLeast(m, s) && IsLeast(m', s) ensures m == m' { LeqTotal(m, m'); }
    }
    var m :| m in s && IsLeast(m, s);
    m
  }

  /** `sorted(s)` of a set of strings. */
  function Sorted(s: set<string>): (r: seq<string>)
    ensures |r| == |s| && forall x :: x in r <==> x in s
  {
    if s == {} then [] else
      var m := Least(s);
      [m] + Sorted(s - {m})
  }

  /** The result is in strictly increasing order. */
  lemma {:induction false} SortedInOrder(s: set<string>, i: nat, j: nat)
    requires i < j < |Sorted(s)|
    ensures Sorted(s)[i] != Sorted(s)[j] && Leq(Sorted(s)[i], Sorted(s)[j])
  {
    var m := Least(s);
    var rest := Sorted(s - {m});
    assert rest[j - 1] in rest;
    if i > 0 {
      SortedInOrder(s - {m}, i - 1, j - 1);
    }
  }

  // ---- searching for a free name ----------------------------------------------------

  ghost predicate Injective(f: nat -> string) {
    forall i: nat, j: nat | f(i) == f(j) :: i == j
  }

  /** The first candidate, from `start` on, that is not taken. It exists because the
      candidates never repeat and only finitely many strings are taken. */
  ghost function FirstFree(f: nat -> string, taken: set<string>, start: nat): (n: nat)
    requires Injective(f)
    ensures start <= n && f(n) !in taken
    ensures forall i | start <= i < n :: f(i) in taken
    decreases |taken|
  {
    if f(start) !in taken then start else FirstFree(f, taken - {f(start)}, start + 1)
  }
}
