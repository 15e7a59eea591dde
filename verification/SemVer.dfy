/**
 Versions and their precedence: the `SemVer` record of backend/app/core/semver.py,
 the sort keys built from it there and in core/naming.py and cli/minireg.py, and
 the precedence of Semantic Versioning 2.0.0, section 11, that all of them implement.
 */
module SemVer {
  import opened Common
  import opened PythonOrder

  datatype Ident = Num(n: nat) | Alpha(s: string)

  datatype Version = Version(
    major: nat, minor: nat, patch: nat, prerelease: seq<Ident>, build: Option<string>)
  {
    predicate IsPrerelease() { prerelease != [] }

    predicate SameTriple(other: Version) {
      major == other.major && minor == other.minor && patch == other.patch
    }

    /** The release part alone, compared component by component. */
    predicate TripleBefore(M: nat, m: nat, p: nat) {
      major < M || (major == M && (minor < m || (minor == m && patch < p)))
    }
  }

  // ---------------------------------------------------------------------
  // The sort keys, as the Python tuples the source builds
  // ---------------------------------------------------------------------

  function IdentKey(x: Ident): Value {
    match x
    case Num(n) => Tuple3(Int(0), Int(n), Str(""))
    case Alpha(s) => Tuple3(Int(1), Int(0), Str(s))
  }

  function IdentKeys(pre: seq<Ident>): Items {
    if pre == [] then Nil else Cons(IdentKey(pre[0]), IdentKeys(pre[1..]))
  }

  /** `_prerelease_key`: absent sorts above every prerelease. */
  function PrereleaseKey(pre: seq<Ident>): Value {
    if pre == [] then Tuple1(Int(1)) else Tuple2(Int(0), Tuple(IdentKeys(pre)))
  }

  function TripleKey(v: Version): Value {
    Tuple3(Int(v.major), Int(v.minor), Int(v.patch))
  }

  /** `SemVer._key`: four components side by side. */
  function Key(v: Version): Value {
    Tuple4(Int(v.major), Int(v.minor), Int(v.patch), PrereleaseKey(v.prerelease))
  }

  /** What `semver_key` builds for a version that parses: a marker, the triple
      nested, the prerelease key, an empty string. */
  function RankedKey(v: Version): Value {
    Tuple4(Int(1), TripleKey(v), PrereleaseKey(v.prerelease), Str(""))
  }

  /** What the CLI's `_version_key` builds for npm and cargo. */
  function PairKey(v: Version): Value {
    Tuple2(TripleKey(v), PrereleaseKey(v.prerelease))
  }

  // ---------------------------------------------------------------------
  // Section 11 of Semantic Versioning 2.0.0
  // ---------------------------------------------------------------------

  /** 11.4.1-11.4.3: numeric identifiers by value, alphanumeric ones by
      character, numeric below alphanumeric. */
  function CompareIdents(a: Ident, b: Ident): (r: int)
    ensures -1 <= r <= 1
    ensures r == 0 <==> a == b
  {
    match (a, b)
    case (Num(x), Num(y)) => Sign(x - y)
    case (Num(_), Alpha(_)) => -1
    case (Alpha(_), Num(_)) => 1
    case (Alpha(x), Alpha(y)) => CompareStrings(x, y)
  }

  /** 11.4 and 11.4.4: left to right until a difference; more identifiers win a tie. */
  function ComparePrereleases(a: seq<Ident>, b: seq<Ident>): (r: int)
    ensures -1 <= r <= 1
    ensures r == 0 <==> a == b
  {
    if a == [] || b == [] then Sign(|a| - |b|)
    else if a[0] == b[0] then
      assert a == [a[0]] + a[1..] && b == [b[0]] + b[1..];
      ComparePrereleases(a[1..], b[1..])
    else CompareIdents(a[0], b[0])
  }

  function Precedence(v: Version, w: Version): (r: int)
    ensures -1 <= r <= 1
  {
    if v.major != w.major then Sign(v.major - w.major)
    else if v.minor != w.minor then Sign(v.minor - w.minor)
    else if v.patch != w.patch then Sign(v.patch - w.patch)
    else if v.prerelease == [] && w.prerelease == [] then 0
    else if v.prerelease == [] then 1
    else if w.prerelease == [] then -1
    else ComparePrereleases(v.prerelease, w.prerelease)
  }

  /** Numbers come before alphanumeric identifiers, each kind in its own order. */
  predicate IdentBefore(a: Ident, b: Ident) {
    match (a, b)
    case (Num(x), Num(y)) => x < y
    case (Num(_), Alpha(_)) => true
    case (Alpha(_), Num(_)) => false
    case (Alpha(x), Alpha(y)) => StringBefore(x, y)
  }

  predicate FirstDifference(a: seq<Ident>, b: seq<Ident>, i: nat)
    requires i <= |a| && i < |b|
  {
    a[..i] == b[..i] && (i == |a| || IdentBefore(a[i], b[i]))
  }

  /** The first identifier that differs decides, and a proper prefix comes before. */
  predicate PrereleaseBefore(a: seq<Ident>, b: seq<Ident>) {
    exists i :: 0 <= i <= |a| && i < |b| && FirstDifference(a, b, i)
  }

  /** An earlier triple; or, of one triple, a prerelease before the release, and
      before a later prerelease. */
  predicate VersionBefore(v: Version, w: Version) {
    v.TripleBefore(w.major, w.minor, w.patch)
    || (v.SameTriple(w) && v.IsPrerelease() && (w.IsPrerelease() ==> PrereleaseBefore(v.prerelease, w.prerelease)))
  }

  lemma CompareIdentsMeans(a: Ident, b: Ident)
    ensures CompareIdents(a, b) < 0 <==> IdentBefore(a, b)
    ensures CompareIdents(a, b) > 0 <==> IdentBefore(b, a)
  {
    if a.Alpha? && b.Alpha? {
      CompareStringsMeans(a.s, b.s);
    }
  }

  lemma {:induction false} ComparePrereleasesMeans(a: seq<Ident>, b: seq<Ident>)
    ensures ComparePrereleases(a, b) < 0 <==> PrereleaseBefore(a, b)
    ensures ComparePrereleases(a, b) > 0 <==> PrereleaseBefore(b, a)
  {
    if a == [] || b == [] {
      assert b != [] ==> FirstDifference([], b, 0);
      assert a != [] ==> FirstDifference([], a, 0);
    } else if a[0] == b[0] {
      ComparePrereleasesMeans(a[1..], b[1..]);
      PrereleaseBeforeTail(a, b);
      PrereleaseBeforeTail(b, a);
    } else {
      CompareIdentsMeans(a[0], b[0]);
      assert IdentBefore(a[0], b[0]) ==> FirstDifference(a, b, 0);
      assert IdentBefore(b[0], a[0]) ==> FirstDifference(b, a, 0);
    }
  }

  lemma IdentNotBeforeItself(a: Ident)
    ensures !IdentBefore(a, a)
  {
    CompareIdentsMeans(a, a);
  }

  lemma PrereleaseBeforeTail(a: seq<Ident>, b: seq<Ident>)
    requires a != [] && b != [] && a[0] == b[0]
    ensures PrereleaseBefore(a, b) <==> PrereleaseBefore(a[1..], b[1..])
  {
    IdentNotBeforeItself(a[0]);
    if i :| 0 <= i <= |a| && i < |b| && FirstDifference(a, b, i) {
      assert a[1..][..i - 1] == a[1..i] && b[1..][..i - 1] == b[1..i];
      assert FirstDifference(a[1..], b[1..], i - 1);
    }
    if i :| 0 <= i <= |a[1..]| && i < |b[1..]| && FirstDifference(a[1..], b[1..], i) {
      assert a[..i + 1] == [a[0]] + a[1..][..i] && b[..i + 1] == [b[0]] + b[1..][..i];
      assert FirstDifference(a, b, i + 1);
    }
  }

  /** The precedence is the order section 11 describes. */
  lemma PrecedenceMeans(v: Version, w: Version)
    ensures Precedence(v, w) < 0 <==> VersionBefore(v, w)
    ensures Precedence(v, w) > 0 <==> VersionBefore(w, v)
  {
    ComparePrereleasesMeans(v.prerelease, w.prerelease);
  }

  lemma CompareIdentsOrder(a: Ident, b: Ident, c: Ident)
    ensures CompareIdents(a, b) == -CompareIdents(b, a)
    ensures CompareIdents(a, b) <= 0 && CompareIdents(b, c) <= 0 ==> CompareIdents(a, c) <= 0
  {
    if a.Alpha? && b.Alpha? {
      CompareStringsAntisymmetric(a.s, b.s);
      if c.Alpha? && CompareIdents(a, b) <= 0 && CompareIdents(b, c) <= 0 {
        CompareStringsTransitive(a.s, b.s, c.s);
      }
    }
  }

  lemma {:induction false} ComparePrereleasesAntisymmetric(a: seq<Ident>, b: seq<Ident>)
    ensures ComparePrereleases(a, b) == -ComparePrereleases(b, a)
  {
    if a != [] && b != [] {
      if a[0] == b[0] {
        ComparePrereleasesAntisymmetric(a[1..], b[1..]);
      } else {
        CompareIdentsOrder(a[0], b[0], b[0]);
      }
    }
  }

  lemma {:induction false} ComparePrereleasesTransitive(a: seq<Ident>, b: seq<Ident>, c: seq<Ident>)
    requires ComparePrereleases(a, b) <= 0 && ComparePrereleases(b, c) <= 0
    ensures ComparePrereleases(a, c) <= 0
  {
    if a != [] && b != [] && c != [] {
      CompareIdentsOrder(a[0], b[0], c[0]);
      CompareIdentsOrder(c[0], a[0], b[0]);
      if a[0] == b[0] == c[0] {
        ComparePrereleasesTransitive(a[1..], b[1..], c[1..]);
      }
    }
  }

  /** Precedence is a total preorder whose ties are exactly the versions that
      differ in build metadata alone (section 10). */
  lemma PrecedenceIsTotalPreorder(u: Version, v: Version, w: Version)
    ensures Precedence(u, v) == -Precedence(v, u)
    ensures Precedence(u, v) <= 0 && Precedence(v, w) <= 0 ==> Precedence(u, w) <= 0
    ensures Precedence(u, v) < 0 && Precedence(v, w) <= 0 ==> Precedence(u, w) < 0
    ensures Precedence(u, v) <= 0 && Precedence(v, w) < 0 ==> Precedence(u, w) < 0
    ensures Precedence(u, v) == 0 <==> u.(build := v.build) == v
  {
    ComparePrereleasesAntisymmetric(u.prerelease, v.prerelease);
    ComparePrereleasesAntisymmetric(u.prerelease, w.prerelease);
    ComparePrereleasesAntisymmetric(v.prerelease, w.prerelease);
    if ComparePrereleases(u.prerelease, v.prerelease) <= 0 && ComparePrereleases(v.prerelease, w.prerelease) <= 0 {
      ComparePrereleasesTransitive(u.prerelease, v.prerelease, w.prerelease);
      if ComparePrereleases(w.prerelease, u.prerelease) <= 0 {
        ComparePrereleasesTransitive(v.prerelease, w.prerelease, u.prerelease);
        ComparePrereleasesTransitive(w.prerelease, u.prerelease, v.prerelease);
      }
    }
  }

  // ---------------------------------------------------------------------
  // The keys implement the precedence
  // ---------------------------------------------------------------------

  lemma IdentKeyOrder(a: Ident, b: Ident)
    ensures IdentKey(a) == IdentKey(b) <==> a == b
    ensures Compare(IdentKey(a), IdentKey(b)) == Some(CompareIdents(a, b))
  {
    var x, y := IdentKey(a).items, IdentKey(b).items;
    ThreeThen(x.head, x.tail.head, x.tail.tail.head, Nil, y.head, y.tail.head, y.tail.tail.head, Nil);
  }

  lemma {:induction false} IdentKeysOrder(a: seq<Ident>, b: seq<Ident>)
    ensures IdentKeys(a) == IdentKeys(b) <==> a == b
    ensures CompareItems(IdentKeys(a), IdentKeys(b)) == Some(ComparePrereleases(a, b))
  {
    if a != [] && b != [] {
      IdentKeyOrder(a[0], b[0]);
      IdentKeysOrder(a[1..], b[1..]);
      assert a == [a[0]] + a[1..] && b == [b[0]] + b[1..];
    }
  }

  function PrereleaseOrder(a: seq<Ident>, b: seq<Ident>): int {
    if a == [] && b == [] then 0 else if a == [] then 1 else if b == [] then -1 else ComparePrereleases(a, b)
  }

  lemma PrereleaseKeyOrder(a: seq<Ident>, b: seq<Ident>)
    ensures PrereleaseKey(a) == PrereleaseKey(b) <==> a == b
    ensures Compare(PrereleaseKey(a), PrereleaseKey(b)) == Some(PrereleaseOrder(a, b))
  {
    IdentKeysOrder(a, b);
    if a != [] && b != [] {
      var x, y := Tuple(IdentKeys(a)), Tuple(IdentKeys(b));
      assert Compare(x, y) == CompareItems(IdentKeys(a), IdentKeys(b));
      assert CompareItems(Cons(x, Nil), Cons(y, Nil)) == if x == y then Some(0) else Compare(x, y);
      assert CompareItems(PrereleaseKey(a).items, PrereleaseKey(b).items) == CompareItems(Cons(x, Nil), Cons(y, Nil));
    } else {
      assert Compare(Int(1), Int(0)) == Some(1) && Compare(Int(0), Int(1)) == Some(-1);
      assert CompareItems(PrereleaseKey(a).items, PrereleaseKey(b).items) == Some(PrereleaseOrder(a, b));
    }
  }

  /** `SemVer` comparison, `semver_key` and the CLI's key never raise on parsed
      versions, and each decides exactly the precedence of section 11. */
  lemma KeysOrderByPrecedence(v: Version, w: Version)
    ensures Compare(Key(v), Key(w)) == Some(Precedence(v, w))
    ensures Compare(RankedKey(v), RankedKey(w)) == Some(Precedence(v, w))
    ensures Compare(PairKey(v), PairKey(w)) == Some(Precedence(v, w))
  {
    PrereleaseKeyOrder(v.prerelease, w.prerelease);
    var p, q := PrereleaseKey(v.prerelease), PrereleaseKey(w.prerelease);
    var (M, m, n) := (Int(v.major), Int(v.minor), Int(v.patch));
    var (M', m', n') := (Int(w.major), Int(w.minor), Int(w.patch));
    ThreeThen(M, m, n, Nil, M', m', n', Nil);
    ThreeThen(M, m, n, Cons(p, Nil), M', m', n', Cons(q, Nil));
    assert TripleKey(v) == TripleKey(w) <==> M == M' && m == m' && n == n';
    ThreeThen(Int(1), TripleKey(v), p, Cons(Str(""), Nil), Int(1), TripleKey(w), q, Cons(Str(""), Nil));
    assert CompareItems(Cons(p, Nil), Cons(q, Nil)) == if p == q then Some(0) else Compare(p, q);
  }

  /** `M.m.p-0`, the bound every desugared upper limit carries, is the least
      version of its triple: being below it is being below the triple. */
  lemma ZeroPrereleaseIsLeast(v: Version, bound: Version)
    requires bound.prerelease == [Num(0)]
    ensures Precedence(v, bound) < 0 <==> v.TripleBefore(bound.major, bound.minor, bound.patch)
  {
    if v.prerelease != [] {
      assert ComparePrereleases(v.prerelease[1..], []) >= 0;
    }
  }

  /** Being at or above a release means a triple at or above it, and not a
      prerelease of that very triple. */
  lemma AtLeastRelease(v: Version, bound: Version)
    requires bound.prerelease == []
    ensures Precedence(v, bound) >= 0 <==>
            !v.TripleBefore(bound.major, bound.minor, bound.patch) && !(v.SameTriple(bound) && v.IsPrerelease())
  {
  }
}
