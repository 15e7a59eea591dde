/**
 Version strings: `SemVer.parse` and `str` of backend/app/core/semver.py, the strict
 check and sort key of core/naming.py, and the CLI's own reader in cli/minireg.py.
 The regular expressions are deterministic on their languages, so each is read as
 the cuts it makes: build after the first '+', prerelease after the first '-'.
 */
module SemVerText {
  import opened Common
  import opened PythonOrder
  import opened SemVer
  import opened StableSort
  import opened Text

  // ---------------------------------------------------------------------
  // Characters
  // ---------------------------------------------------------------------

  predicate IsDigit(c: char) { '0' <= c <= '9' }

  predicate IsIdentChar(c: char) { IsDigit(c) || 'a' <= c <= 'z' || 'A' <= c <= 'Z' || c == '-' }

  /** What `str.strip` removes and `\s` matches. */
  predicate IsSpace(c: char) {
    || '\t' <= c <= '\r' || '\U{1C}' <= c <= ' ' || c == '\U{85}' || c == '\U{A0}' || c == '\U{1680}'
    || '\U{2000}' <= c <= '\U{200A}' || c in "\U{2028}\U{2029}\U{202F}\U{205F}\U{3000}"
  }

  predicate AllDigits(s: string) { forall c | c in s :: IsDigit(c) }

  predicate AllIdentChars(s: string) { forall c | c in s :: IsIdentChar(c) }

  /** `0|[1-9]\d*` */
  predicate Numeral(s: string) { s != [] && AllDigits(s) && (s[0] == '0' ==> |s| == 1) }

  /** A numeral, or identifier characters with a non-digit among them. */
  predicate PrereleaseIdent(s: string) {
    Numeral(s) || (s != [] && AllIdentChars(s) && !AllDigits(s))
  }

  predicate Letter(c: char) { 'a' <= c <= 'z' || 'A' <= c <= 'Z' || c == '-' }

  /** `\d*[a-zA-Z-][0-9a-zA-Z-]*`, with the letter or dash it needs at `k`. */
  predicate WordAt(s: string, k: nat)
    requires k < |s|
  {
    && (forall i | 0 <= i < k :: '0' <= s[i] <= '9') && Letter(s[k])
    && (forall i | k < i < |s| :: '0' <= s[i] <= '9' || Letter(s[i]))
  }

  /** The identifiers are those of the regular expression: `0`, a number without a
      leading zero, or a word. */
  lemma PrereleaseIdentMeans(s: string)
    ensures PrereleaseIdent(s) <==>
              s == "0"
              || (s != [] && '1' <= s[0] <= '9' && forall i | 0 <= i < |s| :: '0' <= s[i] <= '9')
              || exists k: nat :: k < |s| && WordAt(s, k)
  {
    assert forall i | 0 <= i < |s| :: s[i] in s;
    if s != [] && AllIdentChars(s) && !AllDigits(s) {
      var k := FirstLetter(s);
      assert forall i | 0 <= i < |s| :: IsIdentChar(s[i]);
      assert WordAt(s, k);
    }
    if k: nat :| k < |s| && WordAt(s, k) {
      assert !IsDigit(s[k]);
      assert forall i | 0 <= i < |s| :: IsIdentChar(s[i]);
    }
    NumeralMeans(s);
  }

  lemma NumeralMeans(s: string)
    ensures Numeral(s) <==> s == "0" || (s != [] && '1' <= s[0] <= '9' && forall i | 0 <= i < |s| :: '0' <= s[i] <= '9')
  {
    assert forall i | 0 <= i < |s| :: s[i] in s;
    if |s| == 1 && s[0] == '0' {
      assert s == "0";
    }
  }

  lemma {:induction false} FirstLetter(s: string) returns (k: nat)
    requires AllIdentChars(s) && !AllDigits(s)
    ensures k < |s| && Letter(s[k]) && forall i | 0 <= i < k :: '0' <= s[i] <= '9'
  {
    if IsDigit(s[0]) {
      k := FirstLetter(s[1..]);
      k := k + 1;
    } else {
      assert s[0] in s;
      k := 0;
    }
  }

  // ---------------------------------------------------------------------
  // Decimal numerals
  // ---------------------------------------------------------------------

  function DigitChar(d: nat): (c: char)
    requires d < 10
    ensures IsDigit(c)
  {
    '0' + d as char
  }

  function DigitValue(c: char): (d: nat)
    requires IsDigit(c)
    ensures d < 10 && DigitChar(d) == c
  {
    (c - '0') as nat
  }

  /** `str(n)` */
  function Digits(n: nat): (s: string)
    ensures Numeral(s)
    ensures n > 0 ==> s[0] != '0'
  {
    if n < 10 then [DigitChar(n)] else Digits(n / 10) + [DigitChar(n % 10)]
  }

  /** `int(s)` */
  function ToNat(s: string): nat
    requires s != [] && AllDigits(s)
  {
    if |s| == 1 then DigitValue(s[0])
    else
      assert s[|s| - 1] in s;
      ToNat(s[..|s| - 1]) * 10 + DigitValue(s[|s| - 1])
  }

  lemma {:induction false} ToNatDigits(n: nat)
    ensures ToNat(Digits(n)) == n
  {
    if n >= 10 {
      ToNatDigits(n / 10);
      assert Digits(n)[..|Digits(n)| - 1] == Digits(n / 10);
    }
  }

  lemma {:induction false} DigitsToNat(s: string)
    requires Numeral(s)
    ensures Digits(ToNat(s)) == s
    ensures ToNat(s) == 0 ==> s[0] == '0'
  {
    if |s| == 1 {
      assert s == [s[0]];
    } else {
      var init := s[..|s| - 1];
      assert s == init + [s[|s| - 1]];
      DigitsToNat(init);
    }
  }

  // ---------------------------------------------------------------------
  // Strict versions: FULL_VERSION_RE without its tolerance, _STRICT_SEMVER_RE
  // ---------------------------------------------------------------------

  /** `int(part) if part.isdigit() else part` */
  function ReadIdent(s: string): Ident {
    if s != [] && AllDigits(s) then Num(ToNat(s)) else Alpha(s)
  }

  function ReadIdents(parts: seq<string>): (r: seq<Ident>)
    ensures |r| == |parts|
    ensures forall i | 0 <= i < |r| :: r[i] == ReadIdent(parts[i])
  {
    if parts == [] then [] else [ReadIdent(parts[0])] + ReadIdents(parts[1..])
  }

  predicate ValidPrerelease(s: string) { forall p | p in Split(s, '.') :: PrereleaseIdent(p) }

  predicate ValidBuild(s: string) { forall p | p in Split(s, '.') :: p != [] && AllIdentChars(p) }

  datatype Parts = Parts(core: string, pre: Option<string>, build: Option<string>)

  function CutParts(s: string): Parts {
    var (main, build) := Cut(s, '+');
    var (core, pre) := Cut(main, '-');
    Parts(core, pre, build)
  }

  function Glue(p: Parts): string {
    p.core + (if p.pre.Some? then "-" + p.pre.value else "") + (if p.build.Some? then "+" + p.build.value else "")
  }

  lemma GlueCut(s: string)
    ensures Glue(CutParts(s)) == s
  {
    CutJoins(s, '+');
    CutJoins(Cut(s, '+').0, '-');
  }

  lemma CutGlue(p: Parts)
    requires '-' !in p.core && '+' !in p.core && (p.pre.Some? ==> '+' !in p.pre.value)
    ensures CutParts(Glue(p)) == p
  {
    var main := p.core + if p.pre.Some? then "-" + p.pre.value else "";
    assert Cut(main, '-') == (p.core, p.pre) by {
      if p.pre.Some? {
        CutAt(p.core, '-', p.pre.value);
        assert main == p.core + ['-'] + p.pre.value;
      } else {
        CutAt(p.core, '-', "");
        assert main == p.core;
      }
    }
    if p.build.Some? {
      CutAt(main, '+', p.build.value);
      assert Glue(p) == main + ['+'] + p.build.value;
    } else {
      CutAt(main, '+', "");
      assert Glue(p) == main;
    }
  }

  function ReadParts(p: Parts): Option<Version> {
    var Parts(core, pre, build) := p;
    var parts := Split(core, '.');
    if |parts| == 3 && Numeral(parts[0]) && Numeral(parts[1]) && Numeral(parts[2])
       && (pre.Some? ==> ValidPrerelease(pre.value)) && (build.Some? ==> ValidBuild(build.value))
    then Some(Version(ToNat(parts[0]), ToNat(parts[1]), ToNat(parts[2]),
                      if pre.Some? then ReadIdents(Split(pre.value, '.')) else [], build))
    else None
  }

  function ParseStrict(s: string): Option<Version> { ReadParts(CutParts(s)) }

  // ---------------------------------------------------------------------
  // Printing, and the round trip in both directions
  // ---------------------------------------------------------------------

  function IdentText(x: Ident): string {
    match x
    case Num(n) => Digits(n)
    case Alpha(s) => s
  }

  function IdentTexts(pre: seq<Ident>): (r: seq<string>)
    ensures |r| == |pre|
    ensures forall i | 0 <= i < |r| :: r[i] == IdentText(pre[i])
  {
    if pre == [] then [] else [IdentText(pre[0])] + IdentTexts(pre[1..])
  }

  function CoreText(v: Version): string {
    Join([Digits(v.major), Digits(v.minor), Digits(v.patch)], '.')
  }

  function PrintedParts(v: Version): Parts {
    Parts(CoreText(v),
          if v.prerelease != [] then Some(Join(IdentTexts(v.prerelease), '.')) else None,
          if v.build.Some? && v.build.value != [] then v.build else None)
  }

  /** `SemVer.__str__` */
  function Print(v: Version): string { Glue(PrintedParts(v)) }

  /** Every identifier and build string is one the grammar can write. */
  predicate WellFormed(v: Version) {
    && (forall x | x in v.prerelease :: x.Alpha? ==> PrereleaseIdent(x.s) && !AllDigits(x.s))
    && (v.build.Some? ==> ValidBuild(v.build.value))
  }

  lemma ReadIdentText(x: Ident)
    requires x.Alpha? ==> PrereleaseIdent(x.s) && !AllDigits(x.s)
    ensures ReadIdent(IdentText(x)) == x
  {
    if x.Num? {
      ToNatDigits(x.n);
    }
  }

  lemma ReadIdentTexts(pre: seq<Ident>)
    requires forall x | x in pre :: x.Alpha? ==> PrereleaseIdent(x.s) && !AllDigits(x.s)
    ensures ReadIdents(IdentTexts(pre)) == pre
  {
    forall i | 0 <= i < |pre| ensures ReadIdent(IdentTexts(pre)[i]) == pre[i] {
      ReadIdentText(pre[i]);
    }
  }

  lemma TextReadIdent(p: string)
    requires PrereleaseIdent(p)
    ensures IdentText(ReadIdent(p)) == p
    ensures ReadIdent(p).Alpha? ==> PrereleaseIdent(ReadIdent(p).s) && !AllDigits(ReadIdent(p).s)
  {
    if AllDigits(p) {
      DigitsToNat(p);
    }
  }

  lemma TextReadIdents(parts: seq<string>)
    requires forall p | p in parts :: PrereleaseIdent(p)
    ensures IdentTexts(ReadIdents(parts)) == parts
    ensures forall x | x in ReadIdents(parts) :: x.Alpha? ==> PrereleaseIdent(x.s) && !AllDigits(x.s)
  {
    forall i | 0 <= i < |parts|
      ensures IdentText(ReadIdents(parts)[i]) == parts[i]
      ensures var x := ReadIdents(parts)[i]; x.Alpha? ==> PrereleaseIdent(x.s) && !AllDigits(x.s)
    {
      TextReadIdent(parts[i]);
    }
  }

  lemma CoreSplits(v: Version)
    ensures Split(CoreText(v), '.') == [Digits(v.major), Digits(v.minor), Digits(v.patch)]
    ensures '-' !in CoreText(v) && '+' !in CoreText(v)
  {
    var parts := [Digits(v.major), Digits(v.minor), Digits(v.patch)];
    SplitJoin(parts, '.');
    JoinChars(parts, '.', '-');
    JoinChars(parts, '.', '+');
  }

  lemma IdentTextIsIdent(x: Ident)
    requires x.Alpha? ==> PrereleaseIdent(x.s) && !AllDigits(x.s)
    ensures PrereleaseIdent(IdentText(x)) && '.' !in IdentText(x) && '+' !in IdentText(x)
  {
  }

  lemma PrereleaseSplits(pre: seq<Ident>)
    requires pre != []
    requires forall x | x in pre :: x.Alpha? ==> PrereleaseIdent(x.s) && !AllDigits(x.s)
    ensures Split(Join(IdentTexts(pre), '.'), '.') == IdentTexts(pre)
    ensures forall p | p in IdentTexts(pre) :: PrereleaseIdent(p)
    ensures '+' !in Join(IdentTexts(pre), '.')
  {
    var texts := IdentTexts(pre);
    forall p | p in texts ensures PrereleaseIdent(p) && '.' !in p && '+' !in p {
      var i :| 0 <= i < |texts| && texts[i] == p;
      IdentTextIsIdent(pre[i]);
    }
    SplitJoin(texts, '.');
    JoinChars(texts, '.', '+');
  }

  lemma ValidBuildNonempty(s: string)
    requires ValidBuild(s)
    ensures s != []
  {
    if s == [] {
      assert [] in Split(s, '.');
    }
  }

  lemma ReadCore(v: Version)
    ensures var parts := Split(CoreText(v), '.');
            |parts| == 3 && Numeral(parts[0]) && Numeral(parts[1]) && Numeral(parts[2])
            && ToNat(parts[0]) == v.major && ToNat(parts[1]) == v.minor && ToNat(parts[2]) == v.patch
  {
    CoreSplits(v);
    ToNatDigits(v.major);
    ToNatDigits(v.minor);
    ToNatDigits(v.patch);
  }

  lemma ReadPrintedParts(v: Version)
    requires WellFormed(v)
    ensures ReadParts(PrintedParts(v)) == Some(v)
    ensures CutParts(Print(v)) == PrintedParts(v)
  {
    CoreSplits(v);
    if v.prerelease != [] {
      PrereleaseSplits(v.prerelease);
    }
    CutGlue(PrintedParts(v));
    ReadCore(v);
    ReadPrintedTail(v, PrintedParts(v));
  }

  lemma ReadPrintedTail(v: Version, p: Parts)
    requires WellFormed(v) && p == PrintedParts(v)
    ensures if p.pre.Some? then ValidPrerelease(p.pre.value) && ReadIdents(Split(p.pre.value, '.')) == v.prerelease
            else v.prerelease == []
    ensures p.build == v.build && (p.build.Some? ==> ValidBuild(p.build.value))
  {
    if v.prerelease != [] {
      PrereleaseSplits(v.prerelease);
      ReadIdentTexts(v.prerelease);
    }
    if v.build.Some? {
      ValidBuildNonempty(v.build.value);
    }
  }

  /** Parsing a printed well-formed version returns it. */
  lemma ParsePrint(v: Version)
    requires WellFormed(v)
    ensures ParseStrict(Print(v)) == Some(v)
  {
    ReadPrintedParts(v);
  }

  /** Printing a strictly parsed version returns the string it came from. */
  lemma PrintParse(s: string)
    requires ParseStrict(s).Some?
    ensures WellFormed(ParseStrict(s).value)
    ensures Print(ParseStrict(s).value) == s
  {
    var Parts(core, pre, build) := CutParts(s);
    var parts := Split(core, '.');
    GlueCut(s);
    JoinSplit(core, '.');
    DigitsToNat(parts[0]);
    DigitsToNat(parts[1]);
    DigitsToNat(parts[2]);
    assert parts == [parts[0], parts[1], parts[2]];
    if pre.Some? {
      JoinSplit(pre.value, '.');
      TextReadIdents(Split(pre.value, '.'));
    }
    if build.Some? {
      ValidBuildNonempty(build.value);
    }
    assert PrintedParts(ParseStrict(s).value) == Parts(core, pre, build);
  }

  // ---------------------------------------------------------------------
  // The tolerant parser, and the three orders on strings
  // ---------------------------------------------------------------------

  function DropLead(s: string): string {
    if s != [] && (s[0] == 'v' || s[0] == '=' || IsSpace(s[0])) then DropLead(s[1..]) else s
  }

  function DropTail(s: string): string {
    if s != [] && IsSpace(s[|s| - 1]) then DropTail(s[..|s| - 1]) else s
  }

  /** `SemVer.parse`: blanks around the version and a `v` or `=` in front are allowed. */
  function Parse(s: string): Option<Version> {
    ParseStrict(DropLead(DropTail(s)))
  }

  /** `_STRICT_SEMVER_RE.match`: its `$` also matches before one final newline. */
  predicate IsValidSemver(s: string) {
    ParseStrict(s).Some? || (s != [] && s[|s| - 1] == '\n' && ParseStrict(s[..|s| - 1]).Some?)
  }

  /** Characters an identifier list can hold. */
  lemma ListChars(s: string, c: char)
    requires forall p | p in Split(s, '.') :: AllIdentChars(p)
    requires c in s
    ensures IsIdentChar(c) || c == '.'
  {
    JoinSplit(s, '.');
    JoinChars(Split(s, '.'), '.', c);
  }

  lemma StrictChars(s: string, c: char)
    requires ParseStrict(s).Some? && c in s
    ensures IsIdentChar(c) || c == '.' || c == '+'
  {
    var Parts(core, pre, build) := CutParts(s);
    GlueCut(s);
    if c in core {
      var parts := Split(core, '.');
      assert parts == [parts[0], parts[1], parts[2]];
      ListChars(core, c);
    } else if pre.Some? && c in pre.value {
      ListChars(pre.value, c);
    } else if build.Some? && c in build.value {
      ListChars(build.value, c);
    }
  }

  /** On a strict version the tolerance changes nothing. */
  lemma StrictIsTolerated(s: string)
    requires ParseStrict(s).Some?
    ensures s != [] && IsDigit(s[0]) && !IsSpace(s[|s| - 1])
    ensures Parse(s) == ParseStrict(s)
  {
    var core := CutParts(s).core;
    GlueCut(s);
    JoinSplit(core, '.');
    assert core[0] == Split(core, '.')[0][0] && s[0] == core[0];
    StrictChars(s, s[|s| - 1]);
    NoVersionCharIsSpace(s[|s| - 1]);
    NoVersionCharIsSpace(s[0]);
  }

  lemma NoVersionCharIsSpace(c: char)
    requires IsIdentChar(c) || c == '.' || c == '+'
    ensures !IsSpace(c)
  {
  }

  predicate IsLead(s: string) { forall c | c in s :: c == 'v' || c == '=' || IsSpace(c) }

  predicate IsBlank(s: string) { forall c | c in s :: IsSpace(c) }

  lemma {:induction false} DropLeadCuts(lead: string, s: string)
    requires IsLead(lead) && s != [] && IsDigit(s[0])
    ensures DropLead(lead + s) == s
  {
    NoVersionCharIsSpace(s[0]);
    if lead == [] {
      assert lead + s == s;
    } else {
      assert lead[0] in lead && (lead + s)[1..] == lead[1..] + s;
      DropLeadCuts(lead[1..], s);
    }
  }

  lemma {:induction false} DropTailCuts(s: string, tail: string)
    requires IsBlank(tail) && (s != [] ==> !IsSpace(s[|s| - 1]))
    ensures DropTail(s + tail) == s
  {
    if tail == [] {
      assert s + tail == s;
    } else {
      assert tail[|tail| - 1] in tail && (s + tail)[..|s + tail| - 1] == s + tail[..|tail| - 1];
      DropTailCuts(s, tail[..|tail| - 1]);
    }
  }

  lemma {:induction false} LeadOf(t: string) returns (lead: string)
    ensures IsLead(lead) && t == lead + DropLead(t)
  {
    if DropLead(t) == t {
      lead := [];
    } else {
      lead := LeadOf(t[1..]);
      assert t == [t[0]] + t[1..];
      lead := [t[0]] + lead;
    }
  }

  lemma {:induction false} TailOf(t: string) returns (tail: string)
    ensures IsBlank(tail) && t == DropTail(t) + tail
  {
    if DropTail(t) == t {
      tail := [];
    } else {
      tail := TailOf(t[..|t| - 1]);
      assert t == t[..|t| - 1] + [t[|t| - 1]];
      tail := tail + [t[|t| - 1]];
    }
  }

  ghost predicate Tolerates(t: string, lead: string, core: string, tail: string) {
    t == lead + core + tail && IsLead(lead) && IsBlank(tail)
  }

  lemma ToleratedParses(t: string, lead: string, core: string, tail: string)
    requires Tolerates(t, lead, core, tail) && ParseStrict(core).Some?
    ensures Parse(t) == ParseStrict(core)
  {
    StrictIsTolerated(core);
    assert (lead + core)[|lead + core| - 1] == core[|core| - 1];
    DropTailCuts(lead + core, tail);
    DropLeadCuts(lead, core);
  }

  /** What the parser tolerates, and nothing else: `v`, `=` and blanks in front of a
      strict version, and blanks behind it. */
  lemma ToleranceMeans(t: string, v: Version)
    ensures Parse(t) == Some(v) <==>
              exists lead, core, tail :: Tolerates(t, lead, core, tail) && ParseStrict(core) == Some(v)
  {
    if Parse(t) == Some(v) {
      var tail := TailOf(t);
      var lead := LeadOf(DropTail(t));
      assert Tolerates(t, lead, DropLead(DropTail(t)), tail);
    }
    if lead, core, tail :| Tolerates(t, lead, core, tail) && ParseStrict(core) == Some(v) {
      ToleratedParses(t, lead, core, tail);
    }
  }

  /** `semver_key`: unparseable strings sort first, among themselves as text. */
  function SemverKey(s: string): Value {
    match Parse(s)
    case None => Tuple4(Int(0), Tuple3(Int(0), Int(0), Int(0)), Tuple1(Int(1)), Str(s))
    case Some(v) => RankedKey(v)
  }

  /** `compare` of core/semver.py. */
  function CompareText(a: string, b: string): int {
    match (Parse(a), Parse(b))
    case (None, None) => CompareStrings(a, b)
    case (None, Some(_)) => -1
    case (Some(_), None) => 1
    case (Some(v), Some(w)) =>
      KeysOrderByPrecedence(v, w);
      Compare(Key(v), Key(w)).value
  }

  predicate CliText(s: string) { s != [] && forall c | c in s :: IsIdentChar(c) || c == '.' }

  /** The CLI's npm/cargo reader: one to three numbers of any width, looser
      identifiers, the whole string. */
  function CliKey(s: string): Option<Value> {
    var Parts(core, pre, build) := CutParts(s);
    var parts := Split(core, '.');
    if |parts| <= 3 && (forall p | p in parts :: p != [] && AllDigits(p))
       && (pre.Some? ==> CliText(pre.value)) && (build.Some? ==> CliText(build.value))
    then
      var number := (i: nat) => if i < |parts| then (assert parts[i] in parts; ToNat(parts[i])) else 0;
      Some(PairKey(Version(number(0), number(1), number(2),
                           if pre.Some? then ReadIdents(Split(pre.value, '.')) else [], None)))
    else None
  }

  lemma {:induction false} IdentListIsCliText(s: string)
    requires forall p | p in Split(s, '.') :: p != [] && AllIdentChars(p)
    ensures CliText(s)
  {
    JoinSplit(s, '.');
    assert s == [] ==> [] in Split(s, '.');
    forall c | c in s ensures IsIdentChar(c) || c == '.' {
      JoinChars(Split(s, '.'), '.', c);
    }
  }

  lemma CliReadsStrict(s: string)
    requires ParseStrict(s).Some?
    ensures CliKey(s) == Some(PairKey(ParseStrict(s).value))
  {
    var Parts(core, pre, build) := CutParts(s);
    if pre.Some? {
      IdentListIsCliText(pre.value);
    }
    if build.Some? {
      IdentListIsCliText(build.value);
    }
  }

  /** The CLI reads a version of one or two numbers as if zeros followed. */
  lemma CliPads(a: string, b: string)
    requires a != [] && AllDigits(a) && b != [] && AllDigits(b)
    ensures CliKey(a) == Some(PairKey(Version(ToNat(a), 0, 0, [], None)))
    ensures CliKey(a + "." + b) == Some(PairKey(Version(ToNat(a), ToNat(b), 0, [], None)))
  {
    DigitsAlone(a);
    DigitsAlone(b);
    SplitAppend(a, b, '.');
    var s := a + "." + b;
    assert Split(s, '.') == [a, b];
    assert '-' !in s && '+' !in s;
    CutAt(s, '+', "");
    CutAt(s, '-', "");
  }

  lemma DigitsAlone(a: string)
    requires AllDigits(a)
    ensures Split(a, '.') == [a] && CutParts(a) == Parts(a, None, None)
  {
    CutAt(a, '+', "");
    CutAt(a, '-', "");
    CutAt(a, '.', "");
  }

  /** `compare` and `semver_key` agree on every pair of strings, parseable or not. */
  lemma CompareAgreesWithSemverKey(a: string, b: string)
    ensures Compare(SemverKey(a), SemverKey(b)) == Some(CompareText(a, b))
  {
    var zero, one := Tuple3(Int(0), Int(0), Int(0)), Tuple1(Int(1));
    match (Parse(a), Parse(b))
    case (Some(v), Some(w)) => KeysOrderByPrecedence(v, w);
    case (None, None) =>
      ThreeThen(Int(0), zero, one, Cons(Str(a), Nil), Int(0), zero, one, Cons(Str(b), Nil));
    case (Some(v), None) =>
      assert Compare(Int(1), Int(0)) == Some(1);
      assert CompareItems(SemverKey(a).items, SemverKey(b).items) == Some(1);
    case (None, Some(w)) =>
      assert Compare(Int(0), Int(1)) == Some(-1);
      assert CompareItems(SemverKey(a).items, SemverKey(b).items) == Some(-1);
  }

  /** On strict versions all four orders are the precedence of section 11. */
  lemma AllOrdersAgree(a: string, b: string)
    requires ParseStrict(a).Some? && ParseStrict(b).Some?
    ensures var p := Precedence(ParseStrict(a).value, ParseStrict(b).value);
            && CompareText(a, b) == p
            && Compare(SemverKey(a), SemverKey(b)) == Some(p)
            && CliKey(a).Some? && CliKey(b).Some?
            && Compare(CliKey(a).value, CliKey(b).value) == Some(p)
  {
    StrictIsTolerated(a);
    StrictIsTolerated(b);
    CompareAgreesWithSemverKey(a, b);
    CliReadsStrict(a);
    CliReadsStrict(b);
    KeysOrderByPrecedence(ParseStrict(a).value, ParseStrict(b).value);
  }

  /** `version_at_least` for npm and cargo versions. */
  function VersionAtLeast(current: string, target: string): Option<bool> {
    match (CliKey(current), CliKey(target))
    case (Some(a), Some(b)) => if Compare(a, b).Some? then Some(Compare(a, b).value >= 0) else None
    case _ => None
  }

  /** So the CLI says a pin has the fix exactly when it does by precedence, and as the
      server's own comparison says. */
  lemma AtLeastIsPrecedence(current: string, target: string)
    requires ParseStrict(current).Some? && ParseStrict(target).Some?
    ensures VersionAtLeast(current, target) == Some(Precedence(ParseStrict(current).value, ParseStrict(target).value) >= 0)
    ensures VersionAtLeast(current, target) == Some(CompareText(current, target) >= 0)
  {
    AllOrdersAgree(current, target);
  }

  /** What passes as a published version always parses, but the CLI can order it
      exactly when it does not end in the newline the strict check lets through. */
  lemma CliReadsValidSemver(s: string)
    requires IsValidSemver(s)
    ensures Parse(s).Some?
    ensures CliKey(s).Some? <==> s[|s| - 1] != '\n'
  {
    if ParseStrict(s).Some? {
      StrictIsTolerated(s);
      CliReadsStrict(s);
    } else {
      var init := s[..|s| - 1];
      StrictIsTolerated(init);
      if CliKey(s).Some? {
        CliChars(s, '\n');
      }
    }
  }

  lemma CliChars(s: string, c: char)
    requires CliKey(s).Some? && c in s
    ensures IsIdentChar(c) || c == '.' || c == '+'
  {
    var core := CutParts(s).core;
    GlueCut(s);
    if c in core {
      JoinSplit(core, '.');
      JoinChars(Split(core, '.'), '.', c);
    }
  }

  /** The witness: a trailing newline passes the strict check and has no CLI key. */
  lemma TrailingNewlineIsValid()
    ensures IsValidSemver("1.2.3\n") && CliKey("1.2.3\n").None?
  {
    var v := Version(1, 2, 3, [], None);
    ParsePrint(v);
    assert Digits(1) == "1" && Digits(2) == "2" && Digits(3) == "3";
    assert Join(["2", "3"], '.') == "2.3";
    assert Print(v) == "1.2.3";
    assert "1.2.3\n"[..5] == "1.2.3";
    CliReadsValidSemver("1.2.3\n");
  }

  // ---------------------------------------------------------------------
  // Sorting, and the version npm makes `latest`
  // ---------------------------------------------------------------------

  lemma CompareTextTransitive(a: string, b: string, c: string)
    requires CompareText(a, b) <= 0 && CompareText(b, c) <= 0
    ensures CompareText(a, c) <= 0
  {
    match (Parse(a), Parse(b), Parse(c))
    case (Some(u), Some(v), Some(w)) =>
      KeysOrderByPrecedence(u, v);
      KeysOrderByPrecedence(v, w);
      KeysOrderByPrecedence(u, w);
      PrecedenceIsTotalPreorder(u, v, w);
    case (None, None, None) => CompareStringsTransitive(a, b, c);
    case _ =>
  }

  lemma CompareTextTotal(a: string, b: string)
    ensures CompareText(a, b) == -CompareText(b, a)
  {
    match (Parse(a), Parse(b))
    case (Some(u), Some(v)) =>
      KeysOrderByPrecedence(u, v);
      KeysOrderByPrecedence(v, u);
      PrecedenceIsTotalPreorder(u, v, v);
    case (None, None) => CompareStringsAntisymmetric(a, b);
    case _ =>
  }

  function TextLeq(): (string, string) -> bool { (a, b) => CompareText(a, b) <= 0 }

  lemma TextLeqIsTotalPreorder()
    ensures TotalPreorder(TextLeq())
  {
    var leq := TextLeq();
    forall a, b ensures leq(a, b) || leq(b, a) {
      CompareTextTotal(a, b);
    }
    forall a, b, c | leq(a, b) && leq(b, c) ensures leq(a, c) {
      CompareTextTransitive(a, b, c);
    }
  }

  /** `sort_semver` */
  function SortSemver(versions: seq<string>): seq<string> { Sorted(versions, TextLeq()) }

  /** A published version with no '-' before its build metadata. */
  predicate Stable(s: string) { IsValidSemver(s) && '-' !in Cut(s, '+').0 }

  function StableOnes(versions: seq<string>): (r: seq<string>)
    ensures forall s :: s in r <==> s in versions && Stable(s)
  {
    if versions == [] then []
    else (if Stable(versions[0]) then [versions[0]] else []) + StableOnes(versions[1..])
  }

  /** The stable versions when there are any, otherwise all of them. */
  function Candidates(versions: seq<string>): (r: seq<string>)
    requires versions != []
    ensures r != []
    ensures forall s :: s in r <==> s in versions && (Stable(s) || forall t | t in versions :: !Stable(t))
  {
    var stable := StableOnes(versions);
    assert stable != [] ==> stable[0] in stable;
    if stable != [] then stable else versions
  }

  /** `max_semver` */
  function MaxSemver(versions: seq<string>): Option<string> {
    if versions == [] then None
    else
      var sorted := SortSemver(Candidates(versions));
      Some(sorted[|sorted| - 1])
  }

  /** No version of the pool outranks this one, and none after it ties with it. */
  predicate LatestBest(pool: seq<string>, k: int) {
    && 0 <= k < |pool|
    && (forall j | 0 <= j < |pool| :: CompareText(pool[j], pool[k]) <= 0)
    && (forall j | k < j < |pool| :: CompareText(pool[j], pool[k]) < 0)
  }

  lemma SortEndsWithBest(pool: seq<string>)
    requires pool != []
    ensures exists k :: LatestBest(pool, k) && SortSemver(pool)[|pool| - 1] == pool[k]
  {
    TextLeqIsTotalPreorder();
    LastIsGreatest(pool, TextLeq());
    var k :| LatestGreatest(pool, TextLeq(), k) && SortSemver(pool)[|pool| - 1] == pool[k];
    LatestIsBest(pool, k);
  }

  lemma LatestIsBest(pool: seq<string>, k: int)
    requires LatestGreatest(pool, TextLeq(), k)
    ensures LatestBest(pool, k)
  {
    var leq := TextLeq();
    forall j | 0 <= j < |pool|
      ensures CompareText(pool[j], pool[k]) <= 0
      ensures j > k ==> CompareText(pool[j], pool[k]) < 0
    {
      assert leq(pool[j], pool[k]);
      assert j > k ==> !leq(pool[k], pool[j]);
      CompareTextTotal(pool[j], pool[k]);
    }
  }

  /** The choice is one of the stable versions when there is one, otherwise any of
      the versions; no member of that pool outranks it, and none after it ties. */
  lemma MaxSemverIsGreatest(versions: seq<string>)
    requires versions != []
    ensures MaxSemver(versions).Some?
    ensures exists k :: LatestBest(Candidates(versions), k) && MaxSemver(versions).value == Candidates(versions)[k]
  {
    SortEndsWithBest(Candidates(versions));
  }

  /** For a strict version, stable means exactly "carries no prerelease". */
  lemma StableMeansRelease(s: string)
    requires ParseStrict(s).Some?
    ensures Stable(s) <==> !ParseStrict(s).value.IsPrerelease()
  {
    var Parts(core, pre, build) := CutParts(s);
    CutJoins(Cut(s, '+').0, '-');
    if pre.Some? {
      assert '-' in Cut(s, '+').0;
      assert Split(pre.value, '.') != [];
    }
  }
}
