/** The two string comparisons the rerun controller relies on, over `seq<char>`. */
module Text {

  /** Maps an ASCII upper-case letter to its lower-case form; every other
      character is left as it is. */
  function ToLowerAscii(c: char): char
  {
    if 'A' <= c <= 'Z' then (c as int + 32) as char else c
  }

  /** Equality ignoring case, the comparison used to recognise a failed outcome.
      Case is folded over ASCII letters only. */
  predicate EqualsIgnoreCase(a: string, b: string)
  {
    |a| == |b| && forall i :: 0 <= i < |a| ==> ToLowerAscii(a[i]) == ToLowerAscii(b[i])
  }

  /** Ordinal (code-point) lexicographic order: `a` sorts at or before `b`. */
  predicate OrdinalLessEq(a: string, b: string)
    decreases |a|
  {
    if a == [] then true
    else if b == [] then false
    else if a[0] != b[0] then a[0] < b[0]
    else OrdinalLessEq(a[1..], b[1..])
  }

  /** Any two names can be ordered. */
  lemma {:induction false} OrdinalTotal(a: string, b: string)
    ensures OrdinalLessEq(a, b) || OrdinalLessEq(b, a)
    decreases |a|
  {
    if a != [] && b != [] && a[0] == b[0] {
      OrdinalTotal(a[1..], b[1..]);
    }
  }

  /** The order is transitive. */
  lemma {:induction false} OrdinalTransitive(a: string, b: string, c: string)
    requires OrdinalLessEq(a, b) && OrdinalLessEq(b, c)
    ensures OrdinalLessEq(a, c)
    decreases |a|
  {
    if a != [] && b != [] && c != [] && a[0] == b[0] && b[0] == c[0] {
      OrdinalTransitive(a[1..], b[1..], c[1..]);
    }
  }

  /** Two names that sort at or before each other are the same name. */
  lemma {:induction false} OrdinalAntisymmetric(a: string, b: string)
    requires OrdinalLessEq(a, b) && OrdinalLessEq(b, a)
    ensures a == b
    decreases |a|
  {
    if a != [] && b != [] {
      OrdinalAntisymmetric(a[1..], b[1..]);
      assert a == [a[0]] + a[1..];
      assert b == [b[0]] + b[1..];
    }
  }
}
