/**
 The npm range compiler of backend/app/core/semver.py in its default mode
 (`include_prerelease` off). A range is read as an abstract syntax tree of terms;
 `Desugar*` are the rewrites the source performs on strings, and `*Means` is what
 the terms say when read directly, with no rewriting and no synthetic `-0` bound.
 */
module SemVerRange {
  import opened Common
  import opened SemVer
  import opened SemVerText

  // ---------------------------------------------------------------------
  // Comparators
  // ---------------------------------------------------------------------

  datatype Operator = Bare | Eq | Lt | Le | Gt | Ge

  datatype Bound = Any | At(version: Version)

  datatype Comparator = Comparator(operator: Operator, bound: Bound)

  predicate Holds(op: Operator, v: Version, bound: Version) {
    var p := Precedence(v, bound);
    match op
    case Bare | Eq => p == 0
    case Lt => p < 0
    case Le => p <= 0
    case Gt => p > 0
    case Ge => p >= 0
  }

  /** `Comparator.test` */
  predicate Passes(c: Comparator, v: Version) {
    c.bound.Any? || Holds(c.operator, v, c.bound.version)
  }

  /** A comparator that names a prerelease of `v`'s own major.minor.patch. */
  predicate OptsIn(c: Comparator, v: Version) {
    c.bound.At? && c.bound.version.IsPrerelease() && c.bound.version.SameTriple(v)
  }

  predicate AllPass(cs: seq<Comparator>, v: Version) { forall c | c in cs :: Passes(c, v) }

  predicate SomeOptsIn(cs: seq<Comparator>, v: Version) { exists c :: c in cs && OptsIn(c, v) }

  /** `ComparatorSet.test`: two passes over the comparators. */
  method TestSet(cs: seq<Comparator>, v: Version) returns (accepted: bool)
    ensures accepted <==> AllPass(cs, v) && (v.IsPrerelease() ==> SomeOptsIn(cs, v))
  {
    for i := 0 to |cs|
      invariant AllPass(cs[..i], v)
    {
      if !Passes(cs[i], v) {
        return false;
      }
    }
    assert cs[..|cs|] == cs;
    if v.IsPrerelease() {
      for i := 0 to |cs|
        invariant !SomeOptsIn(cs[..i], v)
      {
        if OptsIn(cs[i], v) {
          return true;
        }
        assert cs[..i + 1] == cs[..i] + [cs[i]];
      }
      assert cs[..|cs|] == cs;
      return false;
    }
    return true;
  }

  predicate SetAccepts(cs: seq<Comparator>, v: Version) {
    AllPass(cs, v) && (v.IsPrerelease() ==> SomeOptsIn(cs, v))
  }

  // ---------------------------------------------------------------------
  // Syntax
  // ---------------------------------------------------------------------

  /** A version with components missing or written x; the prerelease can only be
      written after a patch position. */
  datatype Partial = Partial(
    major: Option<nat>, minor: Option<nat>, patch: Option<nat>, prerelease: seq<Ident>, build: Option<string>)
  {
    predicate XMajor() { major.None? }
    predicate XMinor() { XMajor() || minor.None? }
    predicate XPatch() { XMinor() || patch.None? }

    function Full(): Version
      requires !XPatch()
    {
      Version(major.value, minor.value, patch.value, prerelease, build)
    }
  }

  datatype Term = Plain(op: Operator, p: Partial) | Tilde(p: Partial) | Caret(p: Partial)

  datatype Clause = Terms(terms: seq<Term>) | Hyphen(low: Partial, high: Partial)

  function Release(M: nat, m: nat, p: nat): Version { Version(M, m, p, [], None) }

  function Least(M: nat, m: nat, p: nat): Version { Version(M, m, p, [Num(0)], None) }

  // ---------------------------------------------------------------------
  // The rewrites
  // ---------------------------------------------------------------------

  function AtLeastBelow(low: Version, high: Version): seq<Comparator> {
    [Comparator(Ge, At(low)), Comparator(Lt, At(high))]
  }

  const Everything := [Comparator(Bare, Any)]

  /** `_desugar_xrange` */
  function DesugarPlain(op0: Operator, p: Partial): seq<Comparator> {
    var op := if op0 == Eq && p.XPatch() then Bare else op0;
    if p.XMajor() then
      if op == Gt || op == Lt then [Comparator(Lt, At(Least(0, 0, 0)))] else Everything
    else if op != Bare && p.XPatch() then
      var M := p.major.value;
      var m := if p.XMinor() then 0 else p.minor.value;
      match op
      case Gt => [Comparator(Ge, At(if p.XMinor() then Release(M + 1, 0, 0) else Release(M, m + 1, 0)))]
      case Le => [Comparator(Lt, At(if p.XMinor() then Least(M + 1, m, 0) else Least(M, m + 1, 0)))]
      case Lt => [Comparator(Lt, At(Least(M, m, 0)))]
      case Ge => [Comparator(op, At(Release(M, m, 0)))]
    else if p.XMinor() then AtLeastBelow(Release(p.major.value, 0, 0), Least(p.major.value + 1, 0, 0))
    else if p.XPatch() then
      AtLeastBelow(Release(p.major.value, p.minor.value, 0), Least(p.major.value, p.minor.value + 1, 0))
    else [Comparator(op, At(p.Full()))]
  }

  /** A bound written with a prerelease keeps it; build metadata is dropped. */
  function Floor(p: Partial): Version
    requires !p.XPatch()
  {
    p.Full().(build := None)
  }

  /** `_desugar_tilde` */
  function DesugarTilde(p: Partial): seq<Comparator> {
    if p.XMajor() then Everything
    else if p.XMinor() then AtLeastBelow(Release(p.major.value, 0, 0), Least(p.major.value + 1, 0, 0))
    else if p.XPatch() then
      AtLeastBelow(Release(p.major.value, p.minor.value, 0), Least(p.major.value, p.minor.value + 1, 0))
    else AtLeastBelow(Floor(p), Least(p.major.value, p.minor.value + 1, 0))
  }

  /** `_desugar_caret` */
  function DesugarCaret(p: Partial): seq<Comparator> {
    if p.XMajor() then Everything
    else
      var M := p.major.value;
      if p.XMinor() then AtLeastBelow(Release(M, 0, 0), Least(M + 1, 0, 0))
      else
        var m := p.minor.value;
        if p.XPatch() then
          AtLeastBelow(Release(M, m, 0), if M == 0 then Least(M, m + 1, 0) else Least(M + 1, 0, 0))
        else
          AtLeastBelow(Floor(p),
                       if M != 0 then Least(M + 1, 0, 0)
                       else if m != 0 then Least(M, m + 1, 0)
                       else Least(M, m, p.patch.value + 1))
  }

  function DesugarTerm(t: Term): seq<Comparator> {
    match t
    case Plain(op, p) => DesugarPlain(op, p)
    case Tilde(p) => DesugarTilde(p)
    case Caret(p) => DesugarCaret(p)
  }

  function Known(v: Version): Partial {
    Partial(Some(v.major), Some(v.minor), Some(v.patch), v.prerelease, v.build)
  }

  function LowerBound(low: Partial): seq<Term> {
    if low.XMajor() then []
    else if low.XMinor() then [Plain(Ge, Known(Release(low.major.value, 0, 0)))]
    else if low.XPatch() then [Plain(Ge, Known(Release(low.major.value, low.minor.value, 0)))]
    else [Plain(Ge, Known(low.Full()))]
  }

  function UpperBound(high: Partial): seq<Term> {
    if high.XMajor() then []
    else if high.XMinor() then [Plain(Lt, Known(Least(high.major.value + 1, 0, 0)))]
    else if high.XPatch() then [Plain(Lt, Known(Least(high.major.value, high.minor.value + 1, 0)))]
    else if high.prerelease != [] then [Plain(Le, Known(high.Full().(build := None)))]
    else [Plain(Le, Known(high.Full()))]
  }

  /** `_desugar_hyphen` writes ordinary terms, which then go through the same
      rewriting as terms a user wrote. */
  function DesugarHyphen(low: Partial, high: Partial): seq<Term> { LowerBound(low) + UpperBound(high) }

  function DesugarTerms(ts: seq<Term>): seq<Comparator> {
    if ts == [] then [] else DesugarTerm(ts[0]) + DesugarTerms(ts[1..])
  }

  function CompileClause(c: Clause): seq<Comparator> {
    var ts := match c case Terms(ts) => ts case Hyphen(low, high) => DesugarHyphen(low, high);
    if ts == [] then Everything else DesugarTerms(ts)
  }

  /** `_parse_comparator_set`: appends the comparators of each token in turn. */
  method ParseComparatorSet(c: Clause) returns (cs: seq<Comparator>)
    ensures cs == CompileClause(c)
  {
    var ts := match c case Terms(ts) => ts case Hyphen(low, high) => DesugarHyphen(low, high);
    cs := [];
    for i := 0 to |ts|
      invariant cs == DesugarTerms(ts[..i])
    {
      DesugarNext(ts, i);
      cs := AppendEach(cs, DesugarTerm(ts[i]));
    }
    assert ts[..|ts|] == ts;
    DesugarNonempty(ts);
    if |cs| == 0 {
      cs := cs + [Comparator(Bare, Any)];
    }
  }

  method AppendEach(cs: seq<Comparator>, expanded: seq<Comparator>) returns (r: seq<Comparator>)
    ensures r == cs + expanded
  {
    r := cs;
    for j := 0 to |expanded|
      invariant r == cs + expanded[..j]
    {
      r := r + [expanded[j]];
    }
    assert expanded[..|expanded|] == expanded;
  }

  lemma {:induction false} DesugarAppend(ts: seq<Term>, t: Term)
    ensures DesugarTerms(ts + [t]) == DesugarTerms(ts) + DesugarTerm(t)
  {
    if ts != [] {
      assert (ts + [t])[1..] == ts[1..] + [t];
      DesugarAppend(ts[1..], t);
    }
  }

  lemma DesugarNext(ts: seq<Term>, i: nat)
    requires i < |ts|
    ensures DesugarTerms(ts[..i + 1]) == DesugarTerms(ts[..i]) + DesugarTerm(ts[i])
  {
    assert ts[..i + 1] == ts[..i] + [ts[i]];
    DesugarAppend(ts[..i], ts[i]);
  }

  lemma DesugarNonempty(ts: seq<Term>)
    ensures ts != [] ==> DesugarTerms(ts) != []
  {
  }

  // ---------------------------------------------------------------------
  // The direct reading
  // ---------------------------------------------------------------------

  /** `v` has the components that `p` writes. */
  predicate HasPrefix(v: Version, p: Partial) {
    && (!p.XMajor() ==> v.major == p.major.value)
    && (!p.XMinor() ==> v.minor == p.minor.value)
    && (!p.XPatch() ==> v.patch == p.patch.value)
  }

  /** `v`'s components come after those that `p` writes. */
  predicate PastPrefix(v: Version, p: Partial) {
    !p.XMajor() &&
    (v.major > p.major.value
     || (v.major == p.major.value && !p.XMinor()
         && (v.minor > p.minor.value
             || (v.minor == p.minor.value && !p.XPatch() && v.patch > p.patch.value))))
  }

  /** `v` is a prerelease of `M.m.p`: it comes before the release it names. */
  predicate LeadsUpTo(v: Version, M: nat, m: nat, p: nat) {
    v.IsPrerelease() && v.major == M && v.minor == m && v.patch == p
  }

  predicate LeadsUpToPrefix(v: Version, p: Partial)
    requires !p.XMajor() && p.XPatch()
  {
    LeadsUpTo(v, p.major.value, if p.XMinor() then 0 else p.minor.value, 0)
  }

  predicate LeadsUpToNextPrefix(v: Version, p: Partial)
    requires !p.XMajor() && p.XPatch()
  {
    if p.XMinor() then LeadsUpTo(v, p.major.value + 1, 0, 0) else LeadsUpTo(v, p.major.value, p.minor.value + 1, 0)
  }

  /** A comparison with a whole version, read off the order of section 11. */
  predicate Compares(op: Operator, v: Version, w: Version) {
    match op
    case Bare | Eq => v.SameTriple(w) && v.prerelease == w.prerelease
    case Gt => VersionBefore(w, v)
    case Ge => !VersionBefore(v, w)
    case Lt => VersionBefore(v, w)
    case Le => !VersionBefore(w, v)
  }

  /** What each comparator accepts, by precedence and by the order itself. */
  lemma ComparatorMeans(op: Operator, bound: Version, v: Version)
    ensures Passes(Comparator(op, At(bound)), v) <==> Compares(op, v, bound)
    ensures Passes(Comparator(Gt, At(bound)), v) <==> Precedence(v, bound) > 0
    ensures Passes(Comparator(Ge, At(bound)), v) <==> Precedence(v, bound) >= 0
    ensures Passes(Comparator(Lt, At(bound)), v) <==> Precedence(v, bound) < 0
    ensures Passes(Comparator(Le, At(bound)), v) <==> Precedence(v, bound) <= 0
    ensures Passes(Comparator(Eq, At(bound)), v) <==> Precedence(v, bound) == 0
    ensures Passes(Comparator(Bare, At(bound)), v) <==> Precedence(v, bound) == 0
  {
    PrecedenceMeans(v, bound);
    PrecedenceIsTotalPreorder(v, bound, bound);
  }

  /** A comparison with a partial version is a comparison with the whole family of
      versions it writes the start of: above, below, or inside the family. */
  predicate PlainMeans(op: Operator, p: Partial, v: Version) {
    if p.XMajor() then op != Gt && op != Lt
    else if !p.XPatch() then Compares(op, v, p.Full())
    else
      match op
      case Bare | Eq => HasPrefix(v, p) && !LeadsUpToPrefix(v, p)
      case Ge => (HasPrefix(v, p) || PastPrefix(v, p)) && !LeadsUpToPrefix(v, p)
      case Gt => PastPrefix(v, p) && !LeadsUpToNextPrefix(v, p)
      case Le => !PastPrefix(v, p)
      case Lt => !HasPrefix(v, p) && !PastPrefix(v, p)
  }

  /** `~` allows patch churn: at or above the version written, same major.minor. */
  predicate TildeMeans(p: Partial, v: Version) {
    if p.XPatch() then PlainMeans(Bare, p, v)
    else !VersionBefore(v, p.Full()) && v.major == p.major.value && v.minor == p.minor.value
  }

  /** `^` keeps the left-most non-zero component. */
  predicate CaretMeans(p: Partial, v: Version) {
    if p.XMinor() then PlainMeans(Bare, p, v)
    else
      && (if p.XPatch() then PlainMeans(Ge, p, v) else !VersionBefore(v, p.Full()))
      && v.major == p.major.value
      && (p.major.value == 0 ==> v.minor == p.minor.value)
      && (p.major.value == 0 && p.minor.value == 0 && !p.XPatch() ==> v.patch == p.patch.value)
  }

  predicate TermMeans(t: Term, v: Version) {
    match t
    case Plain(op, p) => PlainMeans(op, p, v)
    case Tilde(p) => TildeMeans(p, v)
    case Caret(p) => CaretMeans(p, v)
  }

  /** The user wrote a prerelease of `v`'s own major.minor.patch. */
  predicate Names(p: Partial, v: Version) {
    !p.XPatch() && p.prerelease != [] && HasPrefix(v, p)
  }

  predicate ClauseMeans(c: Clause, v: Version) {
    match c
    case Terms(ts) =>
      && (forall t | t in ts :: TermMeans(t, v))
      && (v.IsPrerelease() ==> exists t :: t in ts && Names(t.p, v))
    case Hyphen(low, high) =>
      && PlainMeans(Ge, low, v) && PlainMeans(Le, high, v)
      && (v.IsPrerelease() ==> Names(low, v) || Names(high, v))
  }

  predicate RangeMeans(range: seq<Clause>, v: Version) { exists c :: c in range && ClauseMeans(c, v) }

  function Compile(range: seq<Clause>): (r: seq<seq<Comparator>>)
    ensures |r| == |range|
    ensures forall i | 0 <= i < |range| :: r[i] == CompileClause(range[i])
  {
    if range == [] then [] else [CompileClause(range[0])] + Compile(range[1..])
  }

  /** `Range.test` */
  predicate RangeAccepts(sets: seq<seq<Comparator>>, v: Version) { exists cs :: cs in sets && SetAccepts(cs, v) }

  // ---------------------------------------------------------------------
  // The rewrites preserve the meaning
  // ---------------------------------------------------------------------

  lemma AllPassConcat(a: seq<Comparator>, b: seq<Comparator>, v: Version)
    ensures AllPass(a + b, v) <==> AllPass(a, v) && AllPass(b, v)
    ensures SomeOptsIn(a + b, v) <==> SomeOptsIn(a, v) || SomeOptsIn(b, v)
  {
  }

  lemma PassBetween(low: Version, high: Version, v: Version)
    requires high.prerelease == [Num(0)]
    ensures AllPass(AtLeastBelow(low, high), v) <==>
            !VersionBefore(v, low) && v.TripleBefore(high.major, high.minor, high.patch)
    ensures AllPass(AtLeastBelow(low, high), v) ==>
            (SomeOptsIn(AtLeastBelow(low, high), v) <==> low.IsPrerelease() && low.SameTriple(v))
  {
    var cs := AtLeastBelow(low, high);
    ComparatorMeans(Ge, low, v);
    ZeroPrereleaseIsLeast(v, high);
    assert cs[0] in cs && cs[1] in cs;
  }

  lemma PassOne(c: Comparator, v: Version)
    ensures AllPass([c], v) <==> Passes(c, v)
    ensures SomeOptsIn([c], v) <==> OptsIn(c, v)
  {
  }

  /** One term: its comparators accept what it says, and when they do, the only
      prerelease opt-in among them is one the user wrote. */
  lemma PlainFidelity(op: Operator, p: Partial, v: Version)
    ensures AllPass(DesugarPlain(op, p), v) <==> PlainMeans(op, p, v)
    ensures AllPass(DesugarPlain(op, p), v) ==> (SomeOptsIn(DesugarPlain(op, p), v) <==> Names(p, v))
  {
    var cs := DesugarPlain(op, p);
    if !p.XPatch() {
      ComparatorMeans(op, p.Full(), v);
    }
    if |cs| == 1 {
      PassOne(cs[0], v);
      assert cs == [cs[0]];
      if cs[0].bound.At? && cs[0].bound.version.prerelease == [Num(0)] {
        ZeroPrereleaseIsLeast(v, cs[0].bound.version);
      } else if cs[0].bound.At? && p.XPatch() {
        AtLeastRelease(v, cs[0].bound.version);
      }
    } else {
      PassBetween(cs[0].bound.version, cs[1].bound.version, v);
      AtLeastRelease(v, cs[0].bound.version);
    }
  }

  lemma FloorKeepsPrecedence(p: Partial, v: Version)
    requires !p.XPatch()
    ensures VersionBefore(v, Floor(p)) <==> VersionBefore(v, p.Full())
    ensures !VersionBefore(v, Floor(p)) ==> !v.TripleBefore(p.major.value, p.minor.value, p.patch.value)
  {
  }

  lemma TildeFidelity(p: Partial, v: Version)
    ensures AllPass(DesugarTilde(p), v) <==> TildeMeans(p, v)
    ensures AllPass(DesugarTilde(p), v) ==> (SomeOptsIn(DesugarTilde(p), v) <==> Names(p, v))
  {
    if p.XPatch() {
      PlainFidelity(Bare, p, v);
    } else {
      PassBetween(Floor(p), Least(p.major.value, p.minor.value + 1, 0), v);
      FloorKeepsPrecedence(p, v);
    }
  }

  lemma CaretFidelity(p: Partial, v: Version)
    ensures AllPass(DesugarCaret(p), v) <==> CaretMeans(p, v)
    ensures AllPass(DesugarCaret(p), v) ==> (SomeOptsIn(DesugarCaret(p), v) <==> Names(p, v))
  {
    if p.XMinor() {
      PlainFidelity(Bare, p, v);
    } else {
      var cs := DesugarCaret(p);
      PassBetween(cs[0].bound.version, cs[1].bound.version, v);
      if p.XPatch() {
        AtLeastRelease(v, cs[0].bound.version);
      } else {
        FloorKeepsPrecedence(p, v);
      }
    }
  }

  lemma TermFidelity(t: Term, v: Version)
    ensures AllPass(DesugarTerm(t), v) <==> TermMeans(t, v)
    ensures AllPass(DesugarTerm(t), v) ==> (SomeOptsIn(DesugarTerm(t), v) <==> Names(t.p, v))
  {
    match t
    case Plain(op, p) => PlainFidelity(op, p, v);
    case Tilde(p) => TildeFidelity(p, v);
    case Caret(p) => CaretFidelity(p, v);
  }

  lemma {:induction false} TermsFidelity(ts: seq<Term>, v: Version)
    ensures AllPass(DesugarTerms(ts), v) <==> forall t | t in ts :: TermMeans(t, v)
    ensures AllPass(DesugarTerms(ts), v) ==>
            (SomeOptsIn(DesugarTerms(ts), v) <==> exists t :: t in ts && Names(t.p, v))
  {
    if ts != [] {
      TermFidelity(ts[0], v);
      TermsFidelity(ts[1..], v);
      AllPassConcat(DesugarTerm(ts[0]), DesugarTerms(ts[1..]), v);
      assert forall t :: t in ts <==> t == ts[0] || t in ts[1..];
    }
  }

  lemma LowTerms(low: Partial, ts: seq<Term>, v: Version)
    requires ts == LowerBound(low)
    ensures (forall t | t in ts :: TermMeans(t, v)) <==> PlainMeans(Ge, low, v)
    ensures (exists t :: t in ts && Names(t.p, v)) <==> Names(low, v)
  {
    if !low.XMajor() {
      assert ts == [ts[0]];
      if low.XPatch() {
        AtLeastRelease(v, ts[0].p.Full());
      }
      assert TermMeans(ts[0], v) <==> PlainMeans(Ge, low, v);
    }
  }

  lemma HighTerms(high: Partial, ts: seq<Term>, v: Version)
    requires ts == UpperBound(high)
    ensures (forall t | t in ts :: TermMeans(t, v)) <==> PlainMeans(Le, high, v)
    ensures PlainMeans(Le, high, v) ==> ((exists t :: t in ts && Names(t.p, v)) <==> Names(high, v))
  {
    if !high.XMajor() {
      assert ts == [ts[0]];
      if high.XPatch() {
        ZeroPrereleaseIsLeast(v, ts[0].p.Full());
      }
      assert TermMeans(ts[0], v) <==> PlainMeans(Le, high, v);
    }
  }

  /** The terms a hyphen range is rewritten to say what its two bounds say. */
  lemma HyphenTerms(low: Partial, high: Partial, v: Version)
    ensures var ts := DesugarHyphen(low, high);
            && ((forall t | t in ts :: TermMeans(t, v)) <==> PlainMeans(Ge, low, v) && PlainMeans(Le, high, v))
            && ((forall t | t in ts :: TermMeans(t, v)) ==>
                ((exists t :: t in ts && Names(t.p, v)) <==> Names(low, v) || Names(high, v)))
  {
    LowTerms(low, LowerBound(low), v);
    HighTerms(high, UpperBound(high), v);
  }

  /** Compiling one `||` alternative preserves its meaning. */
  lemma ClauseFidelity(c: Clause, v: Version)
    ensures SetAccepts(CompileClause(c), v) <==> ClauseMeans(c, v)
  {
    match c
    case Terms(ts) =>
      TermsFidelity(ts, v);
      PassOne(Everything[0], v);
    case Hyphen(low, high) =>
      TermsFidelity(DesugarHyphen(low, high), v);
      HyphenTerms(low, high, v);
      PassOne(Everything[0], v);
  }

  /** For every range and every version, the compiled comparator sets accept
      exactly what the terms say. */
  lemma RangeFidelity(range: seq<Clause>, v: Version)
    ensures RangeAccepts(Compile(range), v) <==> RangeMeans(range, v)
  {
    var sets := Compile(range);
    if RangeAccepts(sets, v) {
      var cs :| cs in sets && SetAccepts(cs, v);
      var i :| 0 <= i < |sets| && sets[i] == cs;
      ClauseFidelity(range[i], v);
      assert range[i] in range;
    }
    if RangeMeans(range, v) {
      var c :| c in range && ClauseMeans(c, v);
      var i :| 0 <= i < |range| && range[i] == c;
      ClauseFidelity(c, v);
      assert sets[i] in sets;
    }
  }

  /** Some part the user wrote names a prerelease of `v`'s own major.minor.patch. */
  predicate ClauseNames(c: Clause, v: Version) {
    match c
    case Terms(ts) => exists t :: t in ts && Names(t.p, v)
    case Hyphen(low, high) => Names(low, v) || Names(high, v)
  }

  /** A prerelease never enters a range on the strength of a synthetic bound: the
      alternative that accepts it, terms or hyphen, names a prerelease of the same
      major.minor.patch. */
  lemma PrereleaseNeedsUser(range: seq<Clause>, v: Version)
    requires RangeAccepts(Compile(range), v) && v.IsPrerelease()
    ensures exists c :: c in range && SetAccepts(CompileClause(c), v) && ClauseNames(c, v)
    ensures forall c | c in range && SetAccepts(CompileClause(c), v) :: ClauseNames(c, v)
  {
    RangeFidelity(range, v);
    forall c | c in range ensures SetAccepts(CompileClause(c), v) <==> ClauseMeans(c, v) {
      ClauseFidelity(c, v);
    }
    var c :| c in range && ClauseMeans(c, v);
    assert SetAccepts(CompileClause(c), v) && ClauseNames(c, v);
  }

  // ---------------------------------------------------------------------
  // Choosing a version
  // ---------------------------------------------------------------------

  predicate Satisfies(s: string, range: seq<Clause>) {
    Parse(s).Some? && RangeMeans(range, Parse(s).value)
  }

  method TestRange(sets: seq<seq<Comparator>>, v: Version) returns (accepted: bool)
    ensures accepted <==> RangeAccepts(sets, v)
  {
    for i := 0 to |sets|
      invariant forall j | 0 <= j < i :: !SetAccepts(sets[j], v)
    {
      var one := TestSet(sets[i], v);
      if one {
        assert SetAccepts(sets[i], v) && sets[i] in sets;
        return true;
      }
    }
    return false;
  }

  /** The candidates a range leaves: None for a string that does not parse or
      whose version lies outside. */
  function Inside(s: string, range: seq<Clause>): Option<Version> {
    if Satisfies(s, range) then Parse(s) else None
  }

  function Pool(versions: seq<string>, range: seq<Clause>): (r: seq<Option<Version>>)
    ensures |r| == |versions|
    ensures forall i | 0 <= i < |r| :: r[i] == Inside(versions[i], range)
  {
    if versions == [] then [] else [Inside(versions[0], range)] + Pool(versions[1..], range)
  }

  /** Among the first `n` members of the pool, `at` is the first of the greatest
      ones; None when there is none. */
  predicate FirstGreatest(pool: seq<Option<Version>>, n: nat, at: Option<nat>)
    requires n <= |pool|
  {
    match at
    case None => forall j | 0 <= j < n :: pool[j].None?
    case Some(k) =>
      && k < n && pool[k].Some?
      && (forall j | 0 <= j < n && pool[j].Some? :: Precedence(pool[j].value, pool[k].value) <= 0)
      && (forall j | 0 <= j < k && pool[j].Some? :: Precedence(pool[j].value, pool[k].value) < 0)
  }

  lemma NextCandidate(pool: seq<Option<Version>>, n: nat, at: Option<nat>)
    requires n < |pool| && FirstGreatest(pool, n, at)
    ensures var better := pool[n].Some? && (at.None? || Precedence(pool[n].value, pool[at.value].value) > 0);
            FirstGreatest(pool, n + 1, if better then Some(n) else at)
  {
    if pool[n].Some? && at.Some? && Precedence(pool[n].value, pool[at.value].value) > 0 {
      var v, w := pool[at.value].value, pool[n].value;
      PrecedenceIsTotalPreorder(v, w, w);
      forall j | 0 <= j < n && pool[j].Some? ensures Precedence(pool[j].value, w) < 0 {
        PrecedenceIsTotalPreorder(pool[j].value, v, w);
      }
    }
    if pool[n].Some? {
      PrecedenceIsTotalPreorder(pool[n].value, pool[n].value, pool[n].value);
    }
  }

  /** It satisfies the range, and of those that do none is greater and no earlier one
      ties with it. */
  predicate FirstBest(versions: seq<string>, range: seq<Clause>, k: int)
    requires 0 <= k < |versions|
  {
    && Satisfies(versions[k], range)
    && (forall j | 0 <= j < |versions| && Satisfies(versions[j], range) ::
          !VersionBefore(Parse(versions[k]).value, Parse(versions[j]).value))
    && (forall j | 0 <= j < k && Satisfies(versions[j], range) ::
          VersionBefore(Parse(versions[j]).value, Parse(versions[k]).value))
  }

  lemma GreatestIsBest(versions: seq<string>, range: seq<Clause>, k: nat)
    requires FirstGreatest(Pool(versions, range), |versions|, Some(k))
    ensures FirstBest(versions, range, k)
  {
    var pool := Pool(versions, range);
    forall j | 0 <= j < |versions| && Satisfies(versions[j], range)
      ensures !VersionBefore(Parse(versions[k]).value, Parse(versions[j]).value)
      ensures j < k ==> VersionBefore(Parse(versions[j]).value, Parse(versions[k]).value)
    {
      assert pool[j] == Parse(versions[j]) && pool[k] == Parse(versions[k]);
      PrecedenceMeans(pool[j].value, pool[k].value);
    }
  }

  /** `max_satisfying` */
  method MaxSatisfying(versions: seq<string>, range: seq<Clause>) returns (best: Option<string>)
    ensures best.None? <==> forall s | s in versions :: !Satisfies(s, range)
    ensures best.Some? ==> exists k :: 0 <= k < |versions| && versions[k] == best.value && FirstBest(versions, range, k)
  {
    best := None;
    var bestParsed: Option<Version> := None;
    var sets := Compile(range);
    ghost var at: Option<nat> := None;
    ghost var pool := Pool(versions, range);
    for i := 0 to |versions|
      invariant FirstGreatest(pool, i, at)
      invariant best == match at case None => None case Some(k) => Some(versions[k])
      invariant bestParsed == match at case None => None case Some(k) => pool[k]
    {
      NextCandidate(pool, i, at);
      var parsed := Parse(versions[i]);
      if parsed.Some? {
        var inside := TestRange(sets, parsed.value);
        RangeFidelity(range, parsed.value);
        if inside && (bestParsed.None? || Precedence(parsed.value, bestParsed.value) > 0) {
          best, bestParsed, at := Some(versions[i]), parsed, Some(i);
        }
      }
    }
    if best.None? {
      forall s | s in versions ensures !Satisfies(s, range) {
        var j :| 0 <= j < |versions| && versions[j] == s;
        assert pool[j].None?;
      }
    } else {
      GreatestIsBest(versions, range, at.value);
      assert versions[at.value] in versions;
    }
  }
}
