/** Cutting and joining strings at a separator. */
module Text {
  import opened Common

  /** Cut at the first `c`: what is before it and, if there is one, what is after. */
  function Cut(s: string, c: char): (r: (string, Option<string>))
    ensures r.1.Some? ==> |r.1.value| < |s|
  {
    if s == [] then ([], None)
    else if s[0] == c then ([], Some(s[1..]))
    else var r := Cut(s[1..], c); ([s[0]] + r.0, r.1)
  }

  lemma {:induction false} CutJoins(s: string, c: char)
    ensures c !in Cut(s, c).0
    ensures s == match Cut(s, c).1 case None => Cut(s, c).0 case Some(b) => Cut(s, c).0 + [c] + b
  {
    if s != [] && s[0] != c {
      CutJoins(s[1..], c);
      assert s == [s[0]] + s[1..];
    }
  }

  lemma {:induction false} CutAt(a: string, c: char, b: string)
    requires c !in a
    ensures Cut(a + [c] + b, c) == (a, Some(b))
    ensures Cut(a, c) == (a, None)
  {
    if a == [] {
      assert a + [c] + b == [c] + b;
    } else {
      assert (a + [c] + b)[1..] == a[1..] + [c] + b;
      assert a == [a[0]] + a[1..];
      CutAt(a[1..], c, b);
    }
  }

  /** `s.split(c)` */
  function Split(s: string, c: char): (r: seq<string>)
    ensures r != []
    decreases |s|
  {
    var (a, rest) := Cut(s, c);
    match rest
    case None => [a]
    case Some(b) => [a] + Split(b, c)
  }

  /** `c.join(parts)` */
  function Join(parts: seq<string>, c: char): string
    requires parts != []
  {
    if |parts| == 1 then parts[0] else parts[0] + [c] + Join(parts[1..], c)
  }

  /** No part contains the separator. */
  predicate Apart(parts: seq<string>, c: char) { forall p | p in parts :: c !in p }

  lemma {:induction false} SplitJoin(parts: seq<string>, c: char)
    requires parts != [] && Apart(parts, c)
    ensures Split(Join(parts, c), c) == parts
  {
    if |parts| == 1 {
      CutAt(parts[0], c, "");
    } else {
      SplitJoin(parts[1..], c);
      CutAt(parts[0], c, Join(parts[1..], c));
    }
  }

  lemma {:induction false} JoinSplit(s: string, c: char)
    ensures Join(Split(s, c), c) == s && Apart(Split(s, c), c)
    decreases |s|
  {
    CutJoins(s, c);
    var (a, rest) := Cut(s, c);
    if rest.Some? {
      JoinSplit(rest.value, c);
    }
  }

  lemma {:induction false} JoinChars(parts: seq<string>, c: char, x: char)
    requires parts != []
    ensures x in Join(parts, c) ==> x == c || exists p :: p in parts && x in p
  {
    if |parts| > 1 && x in Join(parts, c) && x != c && x !in parts[0] {
      JoinChars(parts[1..], c, x);
      var p :| p in parts[1..] && x in p;
      assert p in parts;
    }
  }

  lemma {:induction false} CutPrefix(a: string, c: char, b: string)
    requires c in a
    ensures Cut(a, c).1.Some?
    ensures Cut(a + b, c).0 == Cut(a, c).0 && Cut(a + b, c).1 == Some(Cut(a, c).1.value + b)
  {
    assert (a + b)[0] == a[0] && (a + b)[1..] == a[1..] + b;
    if a[0] != c {
      CutPrefix(a[1..], c, b);
    }
  }

  lemma {:induction false} SplitAppend(a: string, b: string, c: char)
    ensures Split(a + [c] + b, c) == Split(a, c) + Split(b, c)
    decreases |a|
  {
    if c in a {
      CutPrefix(a, c, [c] + b);
      assert a + [c] + b == a + ([c] + b);
      var rest := Cut(a, c).1.value;
      assert rest + ([c] + b) == rest + [c] + b;
      SplitAppend(rest, b, c);
    } else {
      CutAt(a, c, b);
    }
  }

  lemma {:induction false} JoinAppend(xs: seq<string>, ys: seq<string>, c: char)
    requires xs != [] && ys != []
    ensures Join(xs + ys, c) == Join(xs, c) + [c] + Join(ys, c)
  {
    if |xs| == 1 {
      assert (xs + ys)[1..] == ys;
    } else {
      assert (xs + ys)[1..] == xs[1..] + ys;
      JoinAppend(xs[1..], ys, c);
    }
  }
}
