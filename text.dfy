/** Operations on strings used across the model: suffix and infix tests, the ordering of
    text columns, and decimal rendering of numbers in framework messages. */
module Text {

  /** Python's `str.endswith`. */
  predicate EndsWith(s: string, suffix: string) {
    |suffix| <= |s| && s[|s| - |suffix|..] == suffix
  }

  /** `x` occurs as a contiguous piece of `s` (Python's `x in s` on strings). */
  ghost predicate IsInfix(x: string, s: string) {
    exists i :: OccursAt(x, s, i)
  }

  predicate OccursAt(x: string, s: string, i: int) {
    0 <= i <= |s| - |x| && s[i..i + |x|] == x
  }

  lemma InfixOfConcat(a: string, x: string, b: string)
    ensures IsInfix(x, a + x + b)
  {
    var s := a + x + b;
    assert OccursAt(x, s, |a|);
  }

  lemma InfixExtend(x: string, s: string, p: string, q: string)
    requires IsInfix(x, s)
    ensures IsInfix(x, p + s + q)
  {
    var i :| OccursAt(x, s, i);
    assert OccursAt(x, p + s + q, |p| + i) by {
      assert (p + s + q)[|p| + i..|p| + i + |x|] == s[i..i + |x|];
    }
  }

  /** The pieces written one after another, as an f-string lays them out. */
  function Join(pieces: seq<string>): string {
    if pieces == [] then "" else pieces[0] + Join(pieces[1..])
  }

  /** Every piece of a joined text occurs in it. */
  lemma {:induction false} PieceOccurs(pieces: seq<string>, k: nat)
    requires k < |pieces|
    ensures IsInfix(pieces[k], Join(pieces))
  {
    if k == 0 {
      InfixOfConcat("", pieces[0], Join(pieces[1..]));
      assert "" + pieces[0] + Join(pieces[1..]) == Join(pieces);
    } else {
      PieceOccurs(pieces[1..], k - 1);
      InfixExtend(pieces[k], Join(pieces[1..]), pieces[0], "");
      assert pieces[0] + Join(pieces[1..]) + "" == Join(pieces);
    }
  }

  /** Lexicographic order by code point, a proper prefix sorting first: how
      Python and a byte-ordered database collation compare two text values. */
  predicate StrLe(a: string, b: string)
    decreases |a|
  {
    if a == [] then true
    else if b == [] then false
    else if a[0] != b[0] then a[0] < b[0]
    else StrLe(a[1..], b[1..])
  }

  predicate StrLt(a: string, b: string) {
    StrLe(a, b) && a != b
  }

  lemma {:induction false} StrLeTotal(a: string, b: string)
    ensures StrLe(a, b) || StrLe(b, a)
    decreases |a|
  {
    if a != [] && b != [] && a[0] == b[0] {
      StrLeTotal(a[1..], b[1..]);
    }
  }

  lemma {:induction false} StrLeAntisymmetric(a: string, b: string)
    requires StrLe(a, b) && StrLe(b, a)
    ensures a == b
    decreases |a|
  {
    if a != [] && b != [] {
      StrLeAntisymmetric(a[1..], b[1..]);
      assert a == [a[0]] + a[1..];
      assert b == [b[0]] + b[1..];
    }
  }

  lemma {:induction false} StrLeTransitive(a: string, b: string, c: string)
    requires StrLe(a, b) && StrLe(b, c)
    ensures StrLe(a, c)
    decreases |a|
  {
    if a != [] && b != [] && c != [] && a[0] == b[0] && b[0] == c[0] {
      StrLeTransitive(a[1..], b[1..], c[1..]);
    }
  }

  /** Two distinct strings are strictly ordered one way or the other. */
  lemma StrLtTransitive(a: string, b: string, c: string)
    requires StrLt(a, b) && StrLe(b, c)
    ensures StrLt(a, c)
  {
    StrLeTransitive(a, b, c);
    if a == c {
      StrLeAntisymmetric(a, b);
    }
  }

  lemma StrLtConnected(a: string, b: string)
    requires a != b
    ensures StrLt(a, b) || StrLt(b, a)
  {
    StrLeTotal(a, b);
  }

  function DigitChar(d: nat): (c: char)
    requires d < 10
    ensures '0' <= c <= '9'
  {
    "0123456789"[d]
  }

  /** Python's `str(n)` for a natural number. */
  function Decimal(n: nat): (s: string)
    ensures 0 < |s|
    ensures forall i :: 0 <= i < |s| ==> '0' <= s[i] <= '9'
  {
    if n < 10 then [DigitChar(n)] else Decimal(n / 10) + [DigitChar(n % 10)]
  }
}
