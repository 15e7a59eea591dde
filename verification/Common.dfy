/** Small types shared by the other modules. */
module Common {

  datatype Option<+T> = None | Some(value: T)

  function Sign(n: int): (r: int)
    ensures -1 <= r <= 1
    ensures r > 0 <==> n > 0
    ensures r < 0 <==> n < 0
  {
    if n > 0 then 1 else if n < 0 then -1 else 0
  }

  /** Python's order on `str`: by code point at the first difference, then by length. */
  function CompareStrings(a: string, b: string): (r: int)
    ensures -1 <= r <= 1
    ensures r == 0 <==> a == b
  {
    if a == [] || b == [] then Sign(|a| - |b|)
    else if a[0] == b[0] then
      var r := CompareStrings(a[1..], b[1..]);
      assert a == [a[0]] + a[1..] && b == [b[0]] + b[1..];
      r
    else if a[0] < b[0] then -1
    else 1
  }

  /** `a` comes before `b`: it is a proper prefix of `b`, or has the smaller character
      where the two first differ. */
  predicate StringBefore(a: string, b: string) {
    exists i :: 0 <= i <= |a| && i < |b| && DiffersAt(a, b, i)
  }

  predicate DiffersAt(a: string, b: string, i: nat)
    requires i <= |a| && i < |b|
  {
    a[..i] == b[..i] && (i == |a| || a[i] < b[i])
  }

  lemma {:induction false} CompareStringsMeans(a: string, b: string)
    ensures CompareStrings(a, b) < 0 <==> StringBefore(a, b)
    ensures CompareStrings(a, b) > 0 <==> StringBefore(b, a)
  {
    if a == [] || b == [] {
      assert b != [] ==> DiffersAt([], b, 0);
      assert a != [] ==> DiffersAt([], a, 0);
    } else if a[0] == b[0] {
      CompareStringsMeans(a[1..], b[1..]);
      StringBeforeTail(a, b);
      StringBeforeTail(b, a);
    } else {
      assert a[0] < b[0] ==> DiffersAt(a, b, 0);
      assert b[0] < a[0] ==> DiffersAt(b, a, 0);
    }
  }

  lemma StringBeforeTail(a: string, b: string)
    requires a != [] && b != [] && a[0] == b[0]
    ensures StringBefore(a, b) <==> StringBefore(a[1..], b[1..])
  {
    if i :| 0 <= i <= |a| && i < |b| && DiffersAt(a, b, i) {
      assert a[1..][..i - 1] == a[1..i] && b[1..][..i - 1] == b[1..i];
      assert DiffersAt(a[1..], b[1..], i - 1);
    }
    if i :| 0 <= i <= |a[1..]| && i < |b[1..]| && DiffersAt(a[1..], b[1..], i) {
      assert a[..i + 1] == [a[0]] + a[1..][..i] && b[..i + 1] == [b[0]] + b[1..][..i];
      assert DiffersAt(a, b, i + 1);
    }
  }

  lemma {:induction false} CompareStringsAntisymmetric(a: string, b: string)
    ensures CompareStrings(a, b) == -CompareStrings(b, a)
  {
    if a != [] && b != [] && a[0] == b[0] {
      CompareStringsAntisymmetric(a[1..], b[1..]);
    }
  }

  lemma {:induction false} CompareStringsTransitive(a: string, b: string, c: string)
    requires CompareStrings(a, b) <= 0 && CompareStrings(b, c) <= 0
    ensures CompareStrings(a, c) <= 0
  {
    if a != [] && b != [] && c != [] && a[0] == b[0] == c[0] {
      CompareStringsTransitive(a[1..], b[1..], c[1..]);
    }
  }
}
