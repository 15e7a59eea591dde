/**
 Image names of backend/app/docker/naming.py: the name and tag grammar, where a name is
 routed, and how a /v2 path is told apart from the names in it.
 */
module ImageNames {
  import opened Common
  import opened Text

  // ---------------------------------------------------------------------
  // Grammar
  // ---------------------------------------------------------------------

  predicate Lower(c: char) { 'a' <= c <= 'z' || '0' <= c <= '9' }

  predicate LetterOrDigit(c: char) { Lower(c) || 'A' <= c <= 'Z' }

  /** Where a component's reader is: after a letter or digit, or inside a separator. */
  datatype Reading = Begin | InWord | AfterDot | AfterUnderscore | AfterTwoUnderscores | AfterDash | Refused

  function Read(at: Reading, c: char): Reading {
    if Lower(c) && !at.Refused? then InWord
    else match at
      case InWord => if c == '.' then AfterDot else if c == '_' then AfterUnderscore else if c == '-' then AfterDash else Refused
      case AfterUnderscore => if c == '_' then AfterTwoUnderscores else Refused
      case AfterDash => if c == '-' then AfterDash else Refused
      case _ => Refused
  }

  function ReadAll(at: Reading, s: string): Reading
    decreases |s|
  {
    if s == [] then at else ReadAll(Read(at, s[0]), s[1..])
  }

  /** `_COMPONENT`: lower-case words joined by `.`, `_`, `__` or a run of dashes. */
  predicate Component(s: string) { ReadAll(Begin, s) == InWord }

  /** `[a-z0-9]+` */
  predicate IsWord(s: string) { s != "" && forall i | 0 <= i < |s| :: 'a' <= s[i] <= 'z' || '0' <= s[i] <= '9' }

  /** `\.|_|__|-+` */
  predicate IsSeparator(s: string) { s == "." || s == "_" || s == "__" || (s != "" && forall i | 0 <= i < |s| :: s[i] == '-') }

  /** A word, and then nothing or a separator and the same again. */
  ghost predicate Matches(s: string)
    decreases |s|
  {
    exists i :: 0 < i <= |s| && IsWord(s[..i]) && (i == |s| || exists j :: i < j < |s| && IsSeparator(s[i..j]) && Matches(s[j..]))
  }

  lemma {:induction false} ReadAppend(at: Reading, a: string, b: string)
    ensures ReadAll(at, a + b) == ReadAll(ReadAll(at, a), b)
    decreases |a|
  {
    if a == [] {
      assert a + b == b;
    } else {
      assert (a + b)[1..] == a[1..] + b;
      ReadAppend(Read(at, a[0]), a[1..], b);
    }
  }

  lemma {:induction false} ReadWord(at: Reading, s: string)
    requires !at.Refused? && IsWord(s)
    ensures ReadAll(at, s) == InWord
    decreases |s|
  {
    if |s| > 1 {
      ReadWord(InWord, s[1..]);
    }
  }

  lemma {:induction false} ReadDashes(s: string)
    requires forall i | 0 <= i < |s| :: s[i] == '-'
    ensures ReadAll(AfterDash, s) == AfterDash
  {
    if s != [] {
      ReadDashes(s[1..]);
    }
  }

  lemma ReadSeparator(s: string)
    requires IsSeparator(s)
    ensures var at := ReadAll(InWord, s); at.AfterDot? || at.AfterUnderscore? || at.AfterTwoUnderscores? || at.AfterDash?
  {
    if s[0] == '-' {
      ReadDashes(s[1..]);
    } else if s == "__" {
      assert s[1..] == "_" && s[1..][1..] == "";
      assert ReadAll(AfterUnderscore, s[1..]) == ReadAll(AfterTwoUnderscores, s[1..][1..]);
    } else {
      assert s[1..] == "";
    }
  }

  lemma {:induction false} MatchesRead(s: string, at: Reading)
    requires Matches(s) && !at.Refused?
    ensures ReadAll(at, s) == InWord
    decreases |s|
  {
    var i :| 0 < i <= |s| && IsWord(s[..i]) && (i == |s| || exists j :: i < j < |s| && IsSeparator(s[i..j]) && Matches(s[j..]));
    ReadWord(at, s[..i]);
    if i == |s| {
      assert s[..i] == s;
    } else {
      var j :| i < j < |s| && IsSeparator(s[i..j]) && Matches(s[j..]);
      ReadSeparator(s[i..j]);
      MatchesRead(s[j..], ReadAll(InWord, s[i..j]));
      ReadInThree(at, s, i, j);
    }
  }

  lemma ReadInThree(at: Reading, s: string, i: nat, j: nat)
    requires i <= j <= |s|
    ensures ReadAll(at, s) == ReadAll(ReadAll(ReadAll(at, s[..i]), s[i..j]), s[j..])
  {
    ReadAppend(at, s[..i], s[i..]);
    ReadAppend(ReadAll(at, s[..i]), s[i..j], s[j..]);
    assert s == s[..i] + s[i..] && s[i..] == s[i..j] + s[j..];
  }

  /** Where the next word begins after a separator began. */
  lemma {:induction false} WordFollows(at: Reading, t: string) returns (j: nat)
    requires at.AfterDot? || at.AfterUnderscore? || at.AfterTwoUnderscores? || at.AfterDash?
    requires ReadAll(at, t) == InWord
    ensures j < |t| && Lower(t[j]) && ReadAll(Begin, t[j..]) == InWord
    ensures at.AfterDot? || at.AfterTwoUnderscores? ==> j == 0
    ensures at.AfterUnderscore? ==> j == 0 || (j == 1 && t[0] == '_')
    ensures at.AfterDash? ==> forall i | 0 <= i < j :: t[i] == '-'
    decreases |t|
  {
    RefusedStays(t[1..]);
    if Lower(t[0]) {
      j := 0;
      assert t[0..] == t;
    } else {
      j := WordFollows(Read(at, t[0]), t[1..]);
      j := j + 1;
      assert t[1..][j - 1..] == t[j..];
    }
  }

  /** How far the word goes. */
  lemma {:induction false} WordOf(s: string) returns (i: nat)
    ensures i <= |s| && (forall k | 0 <= k < i :: Lower(s[k])) && (i < |s| ==> !Lower(s[i]))
  {
    if s != [] && Lower(s[0]) {
      i := WordOf(s[1..]);
      i := i + 1;
    } else {
      i := 0;
    }
  }

  lemma {:induction false} ReadMatches(s: string)
    requires ReadAll(Begin, s) == InWord
    ensures Matches(s)
    decreases |s|
  {
    var i := WordOf(s);
    if i == 0 {
      RefusedStays(s[1..]);
      assert false;
    }
    assert IsWord(s[..i]);
    if i < |s| {
      ReadWord(Begin, s[..i]);
      ReadAppend(Begin, s[..i], s[i..]);
      assert s == s[..i] + s[i..];
      RefusedStays(s[i + 1..]);
      assert s[i..][1..] == s[i + 1..];
      var j := WordFollows(Read(InWord, s[i]), s[i + 1..]);
      var k := i + 1 + j;
      assert s[k..] == s[i + 1..][j..];
      assert s[i..k] == [s[i]] + s[i + 1..][..j];
      assert IsSeparator(s[i..k]);
      ReadMatches(s[k..]);
    }
  }

  /** The reader accepts what the regular expression matches. */
  lemma ComponentMeans(s: string)
    ensures Component(s) <==> Matches(s)
  {
    if Component(s) {
      ReadMatches(s);
    }
    if Matches(s) {
      MatchesRead(s, Begin);
    }
  }

  const MAX_NAME_LENGTH := 255

  predicate NameShaped(name: string) { forall part | part in Split(name, '/') :: Component(part) }

  /** `valid_name` */
  predicate ValidName(name: string) { 0 < |name| <= MAX_NAME_LENGTH && NameShaped(name) }

  /** `is_tag` */
  predicate IsTag(s: string) {
    && 0 < |s| <= 128
    && (LetterOrDigit(s[0]) || s[0] == '_')
    && forall c | c in s :: LetterOrDigit(c) || c == '.' || c == '_' || c == '-'
  }

  predicate Hex(c: char) { '0' <= c <= '9' || 'a' <= c <= 'f' }

  /** `is_digest` */
  predicate IsDigest(s: string) {
    |s| == 71 && s[..7] == "sha256:" && forall c | c in s[7..] :: Hex(c)
  }

  ghost predicate TagOf(s: string, c: char, rest: string) {
    && s == [c] + rest && |rest| <= 127 && ('A' <= c <= 'Z' || 'a' <= c <= 'z' || '0' <= c <= '9' || c == '_')
    && forall x | x in rest :: 'A' <= x <= 'Z' || 'a' <= x <= 'z' || '0' <= x <= '9' || x == '.' || x == '_' || x == '-'
  }

  ghost predicate DigestOf(s: string, hex: string) {
    s == "sha256:" + hex && |hex| == 64 && forall x | x in hex :: 'a' <= x <= 'f' || '0' <= x <= '9'
  }

  /** Tags and digests are those of the regular expressions, the whole string matched. */
  lemma ReferencesMean(s: string)
    ensures IsTag(s) <==> exists c, rest :: TagOf(s, c, rest)
    ensures IsDigest(s) <==> exists hex :: DigestOf(s, hex)
  {
    if IsTag(s) {
      assert s == [s[0]] + s[1..] && forall x | x in s[1..] :: x in s;
      assert TagOf(s, s[0], s[1..]);
    }
    if c, rest :| TagOf(s, c, rest) {
      assert forall x | x in s :: x == c || x in rest;
    }
    if IsDigest(s) {
      assert DigestOf(s, s[7..]);
    }
    if hex :| DigestOf(s, hex) {
      assert s[7..] == hex;
    }
  }

  /** A valid name is up to 255 characters of components joined by slashes. */
  lemma NamesMean(name: string)
    ensures ValidName(name) <==>
              |name| <= 255 && exists parts :: parts != [] && name == Join(parts, '/') && forall p | p in parts :: Matches(p)
  {
    if ValidName(name) {
      JoinSplit(name, '/');
      forall p | p in Split(name, '/') ensures Matches(p) {
        ComponentMeans(p);
      }
    }
    if parts :| parts != [] && name == Join(parts, '/') && forall p | p in parts :: Matches(p) {
      forall p | p in parts ensures Component(p) && p != "" && '/' !in p {
        ComponentMeans(p);
        ComponentText(p);
      }
      SplitJoin(parts, '/');
      assert parts[0] in parts;
      assert name != "";
    }
  }

  lemma {:induction false} RefusedStays(s: string)
    ensures ReadAll(Refused, s) == Refused
  {
    if s != [] {
      RefusedStays(s[1..]);
    }
  }

  lemma {:induction false} ReadNoSlash(at: Reading, s: string)
    requires ReadAll(at, s) == InWord
    ensures '/' !in s && '\n' !in s
    decreases |s|
  {
    if s != [] {
      if Read(at, s[0]) == Refused {
        RefusedStays(s[1..]);
      } else {
        ReadNoSlash(Read(at, s[0]), s[1..]);
      }
    }
  }

  /** Components are not empty and contain no slash. */
  lemma ComponentText(s: string)
    requires Component(s)
    ensures s != "" && '/' !in s && '\n' !in s
  {
    ReadNoSlash(Begin, s);
  }

  lemma NameShapeJoins(a: string, b: string)
    ensures NameShaped(a + "/" + b) <==> NameShaped(a) && NameShaped(b)
  {
    SplitAppend(a, b, '/');
    var xs, ys := Split(a, '/'), Split(b, '/');
    assert forall p :: p in xs + ys <==> p in xs || p in ys;
  }

  lemma SegmentIsName(s: string)
    requires '/' !in s
    ensures Split(s, '/') == [s] && (NameShaped(s) <==> Component(s))
  {
    CutAt(s, '/', "");
  }

  // ---------------------------------------------------------------------
  // Routing
  // ---------------------------------------------------------------------

  const HUB := "dockerhub"
  const LIBRARY := "library"

  /** `library`: one-segment names live under library/ there. */
  datatype Upstream = Upstream(name: string, library: bool)

  datatype Config = Config(
    localNs: string, upstreams: map<string, Upstream>, default: Option<Upstream>, disabled: set<string>)

  datatype Target = Here(canonical: string) | There(canonical: string, upstream: Upstream, remote: string)

  datatype Problem = NoHub | NamespaceAlone | UpstreamDisabled | NoUpstream

  datatype Routing = To(target: Target) | Nowhere(why: Problem)

  /** `name.partition("/")` */
  function First(name: string): string { Cut(name, '/').0 }

  function Rest(name: string): string { if Cut(name, '/').1.Some? then Cut(name, '/').1.value else "" }

  /** `library_expand` */
  function LibraryExpand(u: Upstream, remote: string): string {
    if '/' in remote then remote else if u.library then LIBRARY + "/" + remote else remote
  }

  function Through(u: Upstream, remote: string): Target {
    There(u.name + "/" + LibraryExpand(u, remote), u, LibraryExpand(u, remote))
  }

  function HubOf(c: Config): Option<Upstream> { if HUB in c.upstreams then Some(c.upstreams[HUB]) else c.default }

  /** `route` */
  function Route(c: Config, name: string, mirrorHost: bool): Routing {
    var first, rest := First(name), Rest(name);
    if mirrorHost then
      if HubOf(c).None? then Nowhere(NoHub) else To(Through(HubOf(c).value, name))
    else if first == c.localNs then
      if rest == "" then Nowhere(NamespaceAlone) else To(Here(name))
    else if rest != "" && first in c.disabled && first !in c.upstreams then Nowhere(UpstreamDisabled)
    else if rest != "" && first in c.upstreams then To(Through(c.upstreams[first], rest))
    else if c.default.None? then Nowhere(NoUpstream)
    else To(Through(c.default.value, name))
  }

  /** What is asked of an upstream: one-segment names live under library/ at Docker Hub. */
  predicate AskedFor(t: Target, u: Upstream, name: string) {
    && t.There? && t.upstream == u && t.canonical == u.name + "/" + t.remote
    && t.remote == if '/' !in name && u.library then "library/" + name else name
  }

  /** Where a name goes, by its first segment and what follows the slash after it. On
      the mirror host everything is a Docker Hub name. Elsewhere the local namespace is
      local and needs something in it, the name of an enabled upstream in front of
      something goes there, that of a disabled one goes nowhere, and everything else is
      a name of the default upstream. */
  lemma RouteMeans(c: Config, name: string, mirrorHost: bool, first: string, rest: string)
    requires '/' !in first && (name == first + "/" + rest || (name == first && rest == ""))
    ensures var r := Route(c, name, mirrorHost);
            if mirrorHost then
              if "dockerhub" in c.upstreams then r.To? && AskedFor(r.target, c.upstreams["dockerhub"], name)
              else if c.default.Some? then r.To? && AskedFor(r.target, c.default.value, name)
              else r == Nowhere(NoHub)
            else if first == c.localNs then r == if rest == "" then Nowhere(NamespaceAlone) else To(Here(name))
            else if rest != "" && first in c.upstreams then r.To? && AskedFor(r.target, c.upstreams[first], rest)
            else if rest != "" && first in c.disabled then r == Nowhere(UpstreamDisabled)
            else if c.default.Some? then r.To? && AskedFor(r.target, c.default.value, name)
            else r == Nowhere(NoUpstream)
  {
    CutAt(first, '/', rest);
    assert name == first + "/" + rest ==> name == first + ['/'] + rest;
  }

  /** Upstreams are looked up by their own names, which are single segments; none has
      the local namespace's; the default one is among them. */
  predicate SoundConfig(c: Config) {
    && c.localNs !in c.upstreams
    && (forall n | n in c.upstreams :: n != "" && '/' !in n && c.upstreams[n].name == n)
    && (c.default.Some? ==> c.default.value.name in c.upstreams && c.upstreams[c.default.value.name] == c.default.value)
  }

  lemma PartsOf(a: string, b: string)
    requires '/' !in a
    ensures First(a + "/" + b) == a && Rest(a + "/" + b) == b
    ensures First(a) == a && Rest(a) == ""
  {
    CutAt(a, '/', b);
    assert a + "/" + b == a + ['/'] + b;
  }

  lemma NameParts(name: string)
    requires Rest(name) != ""
    ensures name == First(name) + "/" + Rest(name) && '/' !in First(name)
  {
    CutJoins(name, '/');
  }

  /** Routing a target's own name through its upstream finds it again. */
  lemma ThroughAgain(c: Config, u: Upstream, remote: string)
    requires SoundConfig(c) && u.name in c.upstreams && c.upstreams[u.name] == u && remote != ""
    ensures Route(c, Through(u, remote).canonical, false) == To(Through(u, remote))
  {
    PartsOf(u.name, LibraryExpand(u, remote));
    assert LibraryExpand(u, LibraryExpand(u, remote)) == LibraryExpand(u, remote) by {
      if u.library && '/' !in remote {
        LibraryName(u, remote);
      }
    }
  }

  /** Routing is idempotent on canonical names, however the name first came in. */
  lemma CanonicalIsStable(c: Config, name: string, mirrorHost: bool)
    requires SoundConfig(c) && name != "" && Route(c, name, mirrorHost).To?
    ensures Route(c, Route(c, name, mirrorHost).target.canonical, false) == Route(c, name, mirrorHost)
  {
    var t := Route(c, name, mirrorHost).target;
    if t.There? {
      if !mirrorHost && Rest(name) != "" && First(name) in c.upstreams {
        ThroughAgain(c, c.upstreams[First(name)], Rest(name));
      } else {
        ThroughAgain(c, t.upstream, name);
      }
    }
  }

  /** ... except on the mirror host, where every name is a Hub name, the canonical one
      too: there a second routing always adds another prefix. */
  lemma RouteAgain(c: Config, name: string, mirrorHost: bool)
    requires SoundConfig(c) && name != "" && Route(c, name, mirrorHost).To?
    ensures Route(c, Route(c, name, mirrorHost).target.canonical, mirrorHost) == Route(c, name, mirrorHost) <==> !mirrorHost
  {
    if mirrorHost {
      var hub := HubOf(c).value;
      var t := Route(c, name, true).target;
      assert t.canonical[|hub.name|] == '/';
      assert Route(c, t.canonical, true).target.canonical == hub.name + "/" + t.canonical;
    } else {
      CanonicalIsStable(c, name, false);
    }
  }

  /** A canonical name belongs to one target: distinct upstreams or distinct remote
      names never share one, and no upstream's name is a local one. */
  lemma CanonicalIsInjective(c: Config, a: string, b: string, mirrorA: bool, mirrorB: bool)
    requires SoundConfig(c) && a != "" && b != "" && Route(c, a, mirrorA).To? && Route(c, b, mirrorB).To?
    requires Route(c, a, mirrorA).target.canonical == Route(c, b, mirrorB).target.canonical
    ensures Route(c, a, mirrorA).target == Route(c, b, mirrorB).target
  {
    CanonicalIsStable(c, a, mirrorA);
    CanonicalIsStable(c, b, mirrorB);
  }

  /** A name whose first segment sends it somewhere else than to the default upstream. */
  predicate Captured(c: Config, name: string) {
    First(name) == c.localNs || (Rest(name) != "" && (First(name) in c.upstreams || First(name) in c.disabled))
  }

  /** Docker Hub is the default upstream, under its own name. */
  predicate HubIsDefault(c: Config) {
    HUB in c.upstreams && c.default == Some(c.upstreams[HUB]) && c.upstreams[HUB].library
  }

  /** The escape hatch is needed exactly for captured names: for every other one, the
      name alone means the same image. */
  lemma EscapeHatch(c: Config, name: string)
    requires SoundConfig(c) && HubIsDefault(c) && name != ""
    ensures Route(c, HUB + "/" + name, false) == To(Through(c.upstreams[HUB], name))
    ensures Route(c, name, false) == Route(c, HUB + "/" + name, false) <==> !Captured(c, name)
  {
    PartsOf(HUB, name);
    if Captured(c, name) && Rest(name) != "" && First(name) == HUB {
      OnceMoreIsAnother(c.upstreams[HUB], name);
    }
  }

  lemma OnceMoreIsAnother(hub: Upstream, name: string)
    requires hub.name == HUB && Rest(name) != "" && First(name) == HUB
    ensures Through(hub, Rest(name)) != Through(hub, name)
  {
    NameParts(name);
    assert name[|HUB|] == '/';
    assert |HUB| != |LIBRARY|;
    assert |LibraryExpand(hub, Rest(name))| != |name|;
  }

  /** All spellings of one official image meet: alone, under library/, with the Hub's
      name in front of either, and the first two on the mirror host. */
  lemma HubSpellingsMeet(c: Config, image: string)
    requires SoundConfig(c) && HubIsDefault(c) && Component(image) && image != c.localNs
    requires LIBRARY !in c.upstreams && LIBRARY !in c.disabled && LIBRARY != c.localNs
    ensures var full := LIBRARY + "/" + image;
            var target := To(There(HUB + "/" + full, c.upstreams[HUB], full));
            && Route(c, image, false) == target
            && Route(c, full, false) == target
            && Route(c, HUB + "/" + image, false) == target
            && Route(c, HUB + "/" + full, false) == target
            && Route(c, image, true) == target
            && Route(c, full, true) == target
  {
    ComponentText(image);
    PartsOf(image, "");
    PartsOf(LIBRARY, image);
    EscapeHatch(c, image);
    EscapeHatch(c, LIBRARY + "/" + image);
    LibraryName(c.upstreams[HUB], image);
  }

  lemma LibraryName(u: Upstream, image: string)
    requires u.library && '/' !in image
    ensures LibraryExpand(u, image) == LIBRARY + "/" + image
    ensures LibraryExpand(u, LIBRARY + "/" + image) == LIBRARY + "/" + image
  {
  }

  /** A valid name has a canonical name that is valid too, unless the prefix makes it
      too long or is no component: the check on upstream names lets one newline through
      at the end. */
  lemma RoutedNameIsShaped(c: Config, name: string, mirrorHost: bool)
    requires SoundConfig(c) && ValidName(name) && Route(c, name, mirrorHost).To?
    ensures ValidName(Route(c, name, mirrorHost).target.canonical)
            <==> |Route(c, name, mirrorHost).target.canonical| <= 255
                 && (Route(c, name, mirrorHost).target.There? ==> Component(Route(c, name, mirrorHost).target.upstream.name))
  {
    var t := Route(c, name, mirrorHost).target;
    if t.There? {
      if !mirrorHost && Rest(name) != "" && First(name) in c.upstreams {
        NameParts(name);
        NameShapeJoins(First(name), Rest(name));
        ThroughShape(t.upstream, Rest(name));
      } else {
        ThroughShape(t.upstream, name);
      }
    }
  }

  lemma LibraryIsName()
    ensures NameShaped(LIBRARY)
  {
    SegmentIsName(LIBRARY);
    assert ReadAll(Begin, LIBRARY) == ReadAll(InWord, LIBRARY[1..]) == ReadAll(InWord, LIBRARY[2..]);
    assert ReadAll(InWord, LIBRARY[2..]) == ReadAll(InWord, LIBRARY[3..]) == ReadAll(InWord, LIBRARY[4..]);
    assert ReadAll(InWord, LIBRARY[4..]) == ReadAll(InWord, LIBRARY[5..]) == ReadAll(InWord, LIBRARY[6..]);
  }

  lemma ThroughShape(u: Upstream, remote: string)
    requires u.name != "" && '/' !in u.name && NameShaped(remote)
    ensures Through(u, remote).canonical != ""
    ensures NameShaped(Through(u, remote).canonical) <==> Component(u.name)
  {
    SegmentIsName(u.name);
    LibraryIsName();
    NameShapeJoins(LIBRARY, remote);
    NameShapeJoins(u.name, LibraryExpand(u, remote));
  }

  // ---------------------------------------------------------------------
  // /v2 paths
  // ---------------------------------------------------------------------

  datatype V2Path =
    | Base | Catalog | Token
    | Upload(name: string)
    | UploadSession(name: string, ref: string)
    | BlobPath(name: string, ref: string)
    | ManifestPath(name: string, ref: string)
    | TagsList(name: string)
    | Referrers(name: string, ref: string)

  /** The segments before the last `n`, as a name; the patterns want it not empty. */
  function NameBefore(segments: seq<string>, n: nat): string {
    if |segments| > n then Join(segments[..|segments| - n], '/') else ""
  }

  /** The last two segments, after a name. */
  predicate EndsIn(segments: seq<string>, a: string, b: string) {
    && |segments| >= 2 && segments[|segments| - 2] == a && segments[|segments| - 1] == b
    && NameBefore(segments, 2) != ""
  }

  /** An upload's path, followed by `last`. */
  predicate EndsInUpload(segments: seq<string>, last: string) {
    && |segments| >= 3 && segments[|segments| - 3] == "blobs" && segments[|segments| - 2] == "uploads"
    && segments[|segments| - 1] == last && NameBefore(segments, 3) != ""
  }

  /** `[A-Za-z0-9-]+` */
  predicate SessionRef(s: string) { s != "" && forall c | c in s :: LetterOrDigit(c) || c == '-' }

  /** The patterns, tried in their order. */
  function ParseSegments(segments: seq<string>): Option<V2Path>
    requires segments != []
  {
    var last := segments[|segments| - 1];
    if EndsIn(segments, "blobs", "uploads") then Some(Upload(NameBefore(segments, 2)))
    else if EndsInUpload(segments, "") then Some(Upload(NameBefore(segments, 3)))
    else if EndsInUpload(segments, last) && SessionRef(last) then Some(UploadSession(NameBefore(segments, 3), last))
    else if EndsIn(segments, "blobs", last) && last != "" then Some(BlobPath(NameBefore(segments, 2), last))
    else if EndsIn(segments, "manifests", last) && last != "" then Some(ManifestPath(NameBefore(segments, 2), last))
    else if EndsIn(segments, "tags", "list") then Some(TagsList(NameBefore(segments, 2)))
    else if EndsIn(segments, "referrers", last) && last != "" then Some(Referrers(NameBefore(segments, 2), last))
    else None
  }

  /** `parse_v2_path` */
  function Parse(path: string): Option<V2Path> {
    if path == "" || path == "/" then Some(Base)
    else if path == "_catalog" then Some(Catalog)
    else if path == "token" then Some(Token)
    else ParseSegments(Split(path, '/'))
  }

  /** What follows the name in an endpoint's path. */
  function Suffix(e: V2Path): seq<string>
    requires !e.Base? && !e.Catalog? && !e.Token?
  {
    match e
    case Upload(_) => ["blobs", "uploads", ""]
    case UploadSession(_, ref) => ["blobs", "uploads", ref]
    case BlobPath(_, ref) => ["blobs", ref]
    case ManifestPath(_, ref) => ["manifests", ref]
    case TagsList(_) => ["tags", "list"]
    case Referrers(_, ref) => ["referrers", ref]
  }

  function Print(e: V2Path): string {
    match e
    case Base => ""
    case Catalog => "_catalog"
    case Token => "token"
    case _ => e.name + "/" + Join(Suffix(e), '/')
  }

  /** A name is not empty, a reference is one segment, and no blob is called uploads. */
  predicate Printable(e: V2Path) {
    match e
    case Base | Catalog | Token => true
    case Upload(name) => name != ""
    case TagsList(name) => name != ""
    case UploadSession(name, ref) => name != "" && SessionRef(ref)
    case BlobPath(name, ref) => name != "" && ref != "" && '/' !in ref && ref != "uploads"
    case ManifestPath(name, ref) => name != "" && ref != "" && '/' !in ref
    case Referrers(name, ref) => name != "" && ref != "" && '/' !in ref
  }

  lemma PrintedSegments(e: V2Path)
    requires Printable(e) && !e.Base? && !e.Catalog? && !e.Token?
    ensures Split(Print(e), '/') == Split(e.name, '/') + Suffix(e)
    ensures Join(Split(e.name, '/'), '/') == e.name
    ensures '/' in Print(e) && |Print(e)| > 1
  {
    assert Apart(Suffix(e), '/');
    SplitJoin(Suffix(e), '/');
    SplitAppend(e.name, Join(Suffix(e), '/'), '/');
    assert e.name + "/" + Join(Suffix(e), '/') == e.name + ['/'] + Join(Suffix(e), '/');
    assert Print(e)[|e.name|] == '/';
    JoinSplit(e.name, '/');
  }

  lemma SuffixParses(name: seq<string>, e: V2Path)
    requires Printable(e) && !e.Base? && !e.Catalog? && !e.Token?
    requires name != [] && Join(name, '/') == e.name
    ensures ParseSegments(name + Suffix(e)) == Some(e)
  {
  }

  /** Printing any endpoint and parsing it back returns it, also when the components of
      its name are called blobs, uploads, manifests or tags. */
  lemma ParsePrint(e: V2Path)
    requires Printable(e)
    ensures Parse(Print(e)) == Some(e)
  {
    if !e.Base? && !e.Catalog? && !e.Token? {
      PrintedSegments(e);
      SuffixParses(Split(e.name, '/'), e);
    }
  }

  /** What the registry serves: valid names, tags, digests and upload sessions. */
  predicate Served(e: V2Path) {
    match e
    case Base | Catalog | Token => true
    case Upload(name) => ValidName(name)
    case TagsList(name) => ValidName(name)
    case UploadSession(name, ref) => ValidName(name) && SessionRef(ref)
    case BlobPath(name, ref) => ValidName(name) && IsDigest(ref)
    case ManifestPath(name, ref) => ValidName(name) && (IsTag(ref) || IsDigest(ref))
    case Referrers(name, ref) => ValidName(name) && IsDigest(ref)
  }

  lemma ServedParses(e: V2Path)
    requires Served(e)
    ensures Parse(Print(e)) == Some(e)
  {
    if (e.BlobPath? || e.ManifestPath? || e.Referrers?) && IsDigest(e.ref) {
      assert e.ref == e.ref[..7] + e.ref[7..];
      assert '/' !in e.ref;
    }
    ParsePrint(e);
  }

  /** Every path that parses is the one its endpoint prints to, but for the slash that
      may follow `uploads` and the one that may stand alone. */
  lemma PrintParse(path: string)
    requires Parse(path).Some?
    ensures var e := Parse(path).value;
            Printable(e) && (path == Print(e) || (e.Upload? && path + "/" == Print(e)) || (e.Base? && path == "/"))
  {
    var e := Parse(path).value;
    if !e.Base? && !e.Catalog? && !e.Token? {
      JoinSplit(path, '/');
      SegmentsPrint(Split(path, '/'), e);
    }
  }

  lemma JoinBefore(segments: seq<string>, name: string, suffix: seq<string>)
    requires 0 < |suffix| < |segments| && segments[|segments| - |suffix|..] == suffix
    requires name == NameBefore(segments, |suffix|)
    ensures Join(segments, '/') == name + "/" + Join(suffix, '/')
  {
    var before := segments[..|segments| - |suffix|];
    assert segments == before + suffix;
    JoinAppend(before, suffix, '/');
  }

  lemma EndPrints(segments: seq<string>, a: string, b: string)
    requires Apart(segments, '/') && EndsIn(segments, a, b)
    ensures Join(segments, '/') == NameBefore(segments, 2) + "/" + Join([a, b], '/') && '/' !in b
  {
    assert b in segments;
    assert segments[|segments| - 2..] == [a, b];
    JoinBefore(segments, NameBefore(segments, 2), [a, b]);
  }

  lemma UploadPrints(segments: seq<string>, last: string)
    requires Apart(segments, '/') && EndsInUpload(segments, last)
    ensures Join(segments, '/') == NameBefore(segments, 3) + "/" + Join(["blobs", "uploads", last], '/')
  {
    assert segments[|segments| - 3..] == ["blobs", "uploads", last];
    JoinBefore(segments, NameBefore(segments, 3), ["blobs", "uploads", last]);
  }

  lemma UploadPathPrints(segments: seq<string>, e: V2Path)
    requires segments != [] && Apart(segments, '/') && ParseSegments(segments) == Some(e) && e.Upload?
    ensures Printable(e) && (Join(segments, '/') == Print(e) || Join(segments, '/') + "/" == Print(e))
  {
    assert Join(["blobs", "uploads", ""], '/') == Join(["blobs", "uploads"], '/') + "/";
    if EndsIn(segments, "blobs", "uploads") {
      EndPrints(segments, "blobs", "uploads");
    } else {
      UploadPrints(segments, "");
    }
  }

  /** The round trip holds for exactly the printable endpoints. */
  lemma PrintableIsExact(e: V2Path)
    ensures Parse(Print(e)) == Some(e) <==> Printable(e)
  {
    if Printable(e) {
      ParsePrint(e);
    }
    if Parse(Print(e)) == Some(e) {
      PrintParse(Print(e));
    }
  }

  lemma SegmentsPrint(segments: seq<string>, e: V2Path)
    requires segments != [] && Apart(segments, '/') && ParseSegments(segments) == Some(e)
    ensures Printable(e) && !e.Base? && !e.Catalog? && !e.Token?
    ensures Join(segments, '/') == Print(e) || (e.Upload? && Join(segments, '/') + "/" == Print(e))
  {
    if e.Upload? {
      UploadPathPrints(segments, e);
    } else if e.UploadSession? {
      UploadPrints(segments, e.ref);
    } else {
      var suffix := Suffix(e);
      EndPrints(segments, suffix[0], suffix[1]);
      assert suffix == [suffix[0], suffix[1]];
    }
  }
}
