/**
 `parse_requirements` and the requirements part of `discover` in cli/minireg.py: files
 of one directory that include each other, each to be audited exactly once. A file is
 named by its resolved path; no two names of the directory resolve to the same file.
 */
module Requirements {
  import opened Common

  type File = string

  /** A pin's key: the lower-cased name and the version. */
  datatype Key = Key(name: string, version: string)

  /** What a line of a requirements file turns out to be. `Elsewhere` is an include that
      leaves the directory; `Other` is an option, a URL, an unpinned name or blank. */
  datatype Line = Include(target: File) | Elsewhere | Pin(key: Key) | Other

  /** The readable files; a name that is missing here cannot be read. */
  type Directory = map<File, seq<Line>>

  function LinesOf(files: Directory, f: File): seq<Line> { if f in files then files[f] else [] }

  predicate Includes(files: Directory, f: File, t: File) { Include(t) in LinesOf(files, f) }

  /** Every name the files mention. */
  function Mentioned(files: Directory): set<File> {
    files.Keys + set f, i | f in files && 0 <= i < |files[f]| && files[f][i].Include? :: files[f][i].target
  }

  /** A chain of includes from one of the roots. */
  ghost predicate IsChain(files: Directory, roots: set<File>, chain: seq<File>) {
    chain != [] && chain[0] in roots && forall i | 0 < i < |chain| :: Includes(files, chain[i - 1], chain[i])
  }

  /** Some root includes `f`, directly or through other files; cycles are allowed. */
  ghost predicate Reachable(files: Directory, roots: set<File>, f: File) {
    exists chain :: IsChain(files, roots, chain) && chain[|chain| - 1] == f
  }

  lemma RootIsReachable(files: Directory, roots: set<File>, r: File)
    requires r in roots
    ensures Reachable(files, roots, r)
  {
    assert IsChain(files, roots, [r]);
  }

  lemma IncludedIsReachable(files: Directory, roots: set<File>, f: File, t: File)
    requires Reachable(files, roots, f) && Includes(files, f, t)
    ensures Reachable(files, roots, t)
  {
    var chain :| IsChain(files, roots, chain) && chain[|chain| - 1] == f;
    assert IsChain(files, roots, chain + [t]);
    assert (chain + [t])[|chain + [t]| - 1] == t;
  }

  // ---------------------------------------------------------------------
  // What a root owes its files
  // ---------------------------------------------------------------------

  predicate ClaimedElsewhere(claimed: map<File, File>, path: File, t: File) { t in claimed && claimed[t] != path }

  /** The root `path` is the one to read `f`: its own file, or one claimed for it. */
  predicate Owned(standalone: set<File>, claimed: map<File, File>, path: File, f: File) {
    f == path || (f !in standalone && f in claimed && claimed[f] == path)
  }

  /** An include that needs no more attention: read, or audited on its own, or counted
      under another file. */
  predicate Settled(standalone: set<File>, claimed: map<File, File>, path: File, got: set<File>, t: File) {
    t in got || t in standalone || ClaimedElsewhere(claimed, path, t)
  }

  predicate Closed(
    files: Directory, standalone: set<File>, claimed: map<File, File>, path: File, got: set<File>, f: File)
  {
    forall i | 0 <= i < |LinesOf(files, f)| && LinesOf(files, f)[i].Include? ::
      Settled(standalone, claimed, path, got, LinesOf(files, f)[i].target)
  }

  lemma ClosedGrows(
    files: Directory, standalone: set<File>, path: File, claimed: map<File, File>, got: set<File>,
    moreClaimed: map<File, File>, moreGot: set<File>, fs: set<File>)
    requires got <= moreGot && forall t | t in claimed :: t in moreClaimed && moreClaimed[t] == claimed[t]
    requires forall f | f in fs :: Closed(files, standalone, claimed, path, got, f)
    ensures forall f | f in fs :: Closed(files, standalone, moreClaimed, path, moreGot, f)
  {
  }

  /** The pins among the first `n` lines of `f`. */
  predicate PinnedBy(files: Directory, f: File, n: nat, k: Key) {
    exists i :: 0 <= i < n && i < |LinesOf(files, f)| && LinesOf(files, f)[i] == Pin(k)
  }

  predicate Pinned(files: Directory, f: File, k: Key) { Pin(k) in LinesOf(files, f) }

  predicate PinnedIn(files: Directory, fs: set<File>, k: Key) { exists f :: f in fs && Pinned(files, f, k) }

  /** The keys in `out` are the ones in `before` and the pins of `fs`. */
  ghost predicate Lists(files: Directory, out: seq<Key>, before: seq<Key>, fs: set<File>) {
    forall k :: k in out <==> k in before || PinnedIn(files, fs, k)
  }

  /** ... and the pins among the first `n` lines of `current`, which is being read. */
  ghost predicate ListsUpTo(files: Directory, out: seq<Key>, before: seq<Key>, fs: set<File>, current: File, n: nat) {
    forall k :: k in out <==> k in before || PinnedIn(files, fs, k) || PinnedBy(files, current, n, k)
  }

  lemma ListsMore(
    files: Directory, start: seq<Key>, a: set<File>, middle: seq<Key>, b: set<File>, out: seq<Key>, current: File, n: nat)
    requires ListsUpTo(files, middle, start, a, current, n)
    requires n < |LinesOf(files, current)|
    requires match LinesOf(files, current)[n]
             case Include(_) => Lists(files, out, middle, b)
             case Pin(key) => b == {} && forall k :: k in out <==> k in middle || k == key
             case _ => b == {} && out == middle
    ensures ListsUpTo(files, out, start, a + b, current, n + 1)
  {
  }

  lemma ListsAll(files: Directory, start: seq<Key>, a: set<File>, out: seq<Key>, current: File)
    requires ListsUpTo(files, out, start, a, current, |LinesOf(files, current)|)
    ensures Lists(files, out, start, a + {current})
  {
  }

  predicate NoRepeats(ks: seq<Key>) { forall i, j | 0 <= i < j < |ks| :: ks[i] != ks[j] }

  /** The state of `read`'s closure while the root `path` is parsed. */
  class Audit {
    const files: Directory
    const standalone: set<File>
    var claimed: map<File, File>
    var path: File
    var visited: set<File>
    var out: seq<Key>
    ghost var got: set<File>

    constructor (files: Directory, standalone: set<File>)
      ensures this.files == files && this.standalone == standalone && claimed == map[]
    {
      this.files, this.standalone := files, standalone;
      claimed, path, visited, out, got := map[], "", {}, [], {};
    }

    ghost predicate Valid()
      reads this
    {
      && path in standalone
      && got <= visited
      && (forall f | f in got :: Owned(standalone, claimed, path, f))
      && (forall t | t in visited - got :: (t in standalone && t != path) || ClaimedElsewhere(claimed, path, t))
      && (forall t | t in claimed :: t !in standalone && claimed[t] in standalone)
      && NoRepeats(out)
      && (forall f | f in got :: Reachable(files, standalone, f))
    }

    /** Claims are never given up, and other roots' claims are not touched. */
    ghost predicate Claims(before: map<File, File>)
      reads this
    {
      && (forall t | t in before :: t in claimed && claimed[t] == before[t])
      && (forall t | t in claimed && t !in before :: claimed[t] == path)
    }

    ghost predicate AllClosed(fs: set<File>)
      reads this
    {
      forall f | f in fs :: Closed(files, standalone, claimed, path, got, f)
    }

    /** `read(current)`: reads the file, unless it was, and what it includes. */
    method Read(current: File)
      requires Valid() && Owned(standalone, claimed, path, current) && Reachable(files, standalone, current)
      requires forall t | t in claimed && claimed[t] == path :: t in got || t == current
      modifies this`claimed, this`visited, this`out, this`got
      ensures Valid() && Claims(old(claimed)) && old(got) <= got && old(visited) <= visited
      ensures current in got && AllClosed(got - old(got))
      ensures forall t | t in claimed && claimed[t] == path :: t in got
      ensures Lists(files, out, old(out), got - old(got))
      decreases Mentioned(files) - visited, 0
    {
      if current in visited {
        return;
      }
      visited := visited + {current};
      got := got + {current};
      assert got - old(got) - {current} == {};
      if current in files {
        ReadLines(current, old(got));
      }
      ListsAll(files, old(out), got - old(got) - {current}, out, current);
      assert got - old(got) - {current} + {current} == got - old(got);
    }

    /** Its first `n` lines are read; `before` and `start` are what had been read and
        listed when its turn came. */
    ghost predicate LinesRead(current: File, n: nat, before: set<File>, start: seq<Key>)
      reads this
    {
      && Valid() && current in files && before + {current} <= got && n <= |LinesOf(files, current)|
      && (forall t | t in claimed && claimed[t] == path :: t in got)
      && AllClosed(got - before - {current})
      && (forall j | 0 <= j < n && LinesOf(files, current)[j].Include? ::
            Settled(standalone, claimed, path, got, LinesOf(files, current)[j].target))
      && ListsUpTo(files, out, start, got - before - {current}, current, n)
    }

    /** Its lines, one by one. */
    method ReadLines(current: File, ghost before: set<File>)
      requires LinesRead(current, 0, before, out)
      modifies this`claimed, this`visited, this`out, this`got
      ensures LinesRead(current, |LinesOf(files, current)|, before, old(out))
      ensures Claims(old(claimed)) && old(got) <= got && old(visited) <= visited
      decreases Mentioned(files) - visited, 4
    {
      for i := 0 to |LinesOf(files, current)|
        invariant LinesRead(current, i, before, old(out))
        invariant Claims(old(claimed)) && old(got) <= got && old(visited) <= visited
      {
        ReadNext(current, i, before, old(out));
      }
    }

    method ReadNext(current: File, i: nat, ghost before: set<File>, ghost start: seq<Key>)
      requires i < |LinesOf(files, current)| && LinesRead(current, i, before, start)
      modifies this`claimed, this`visited, this`out, this`got
      ensures LinesRead(current, i + 1, before, start)
      ensures Claims(old(claimed)) && old(got) <= got && old(visited) <= visited
      decreases Mentioned(files) - visited, 3
    {
      ghost var fs := got - before - {current};
      ReadLine(current, i);
      ClosedGrows(files, standalone, path, old(claimed), old(got), claimed, got, fs);
      ListsMore(files, start, fs, old(out), got - old(got), out, current, i);
      assert got - before - {current} == fs + (got - old(got));
    }

    method ReadLine(current: File, i: nat)
      requires Valid() && current in got && i < |LinesOf(files, current)|
      requires forall t | t in claimed && claimed[t] == path :: t in got
      modifies this`claimed, this`visited, this`out, this`got
      ensures Valid() && Claims(old(claimed)) && old(got) <= got && old(visited) <= visited
      ensures AllClosed(got - old(got))
      ensures forall t | t in claimed && claimed[t] == path :: t in got
      ensures match LinesOf(files, current)[i]
              case Include(target) =>
                Settled(standalone, claimed, path, got, target) && Lists(files, out, old(out), got - old(got))
              case Pin(key) => got - old(got) == {} && forall k :: k in out <==> k in old(out) || k == key
              case _ => got - old(got) == {} && out == old(out)
      decreases Mentioned(files) - visited, 2
    {
      match LinesOf(files, current)[i] {
        case Include(target) =>
          IncludedIsReachable(files, standalone, current, target);
          Follow(target);
        case Pin(key) => AddPin(key);
        case _ =>
      }
    }

    method AddPin(key: Key)
      requires Valid()
      modifies this`out
      ensures Valid() && forall k :: k in out <==> k in old(out) || k == key
    {
      if key !in out {
        out := out + [key];
      }
    }

    /** One include line. */
    method Follow(target: File)
      requires Valid() && Reachable(files, standalone, target)
      requires forall t | t in claimed && claimed[t] == path :: t in got
      modifies this`claimed, this`visited, this`out, this`got
      ensures Valid() && Claims(old(claimed)) && old(got) <= got && old(visited) <= visited
      ensures Settled(standalone, claimed, path, got, target) && AllClosed(got - old(got))
      ensures forall t | t in claimed && claimed[t] == path :: t in got
      ensures Lists(files, out, old(out), got - old(got))
      decreases Mentioned(files) - visited, 1
    {
      if target in standalone && target != path {
        visited := visited + {target};
      } else if target in claimed && claimed[target] != path {
        visited := visited + {target};
      } else {
        if target != path && target !in claimed {
          claimed := claimed[target := path];
        }
        Read(target);
      }
    }

    /** `parse_requirements` */
    method ParseRequirements(root: File, ghost done: set<File>) returns (pins: seq<Key>, ghost read: set<File>)
      requires root in standalone && root !in done
      requires forall t | t in claimed :: t !in standalone && claimed[t] in standalone && claimed[t] in done
      modifies this
      ensures forall t | t in claimed :: t !in standalone && claimed[t] in standalone && claimed[t] in done + {root}
      ensures path == root && Claims(old(claimed))
      ensures Covers(files, standalone, claimed, root, read) && Lists(files, pins, [], read) && NoRepeats(pins)
    {
      path, visited, out, got := root, {}, [], {};
      RootIsReachable(files, standalone, root);
      Read(root);
      return out, got;
    }

    /** `discover`, over the directory's requirements files. */
    method Discover(roots: seq<File>) returns (found: seq<seq<Key>>, ghost read: seq<set<File>>)
      requires (forall i, j | 0 <= i < j < |roots| :: roots[i] != roots[j]) && standalone == (set r | r in roots)
      requires claimed == map[]
      modifies this
      ensures |found| == |roots| && |read| == |roots|
      ensures forall f :: Reachable(files, standalone, f) <==> exists i: nat :: i < |read| && f in read[i]
      ensures forall f, i: nat, j: nat | i < |read| && j < |read| && f in read[i] && f in read[j] :: i == j
      ensures forall i: nat | i < |found| :: Lists(files, found[i], [], read[i]) && NoRepeats(found[i])
    {
      found, read := [], [];
      for n := 0 to |roots|
        invariant |found| == n && |read| == n
        invariant forall t | t in claimed :: t !in standalone && claimed[t] in standalone && claimed[t] in roots[..n]
        invariant AllCovered(files, standalone, claimed, roots, read)
        invariant forall i | 0 <= i < n :: Lists(files, found[i], [], read[i]) && NoRepeats(found[i])
      {
        ghost var claimed0 := claimed;
        var pins, more := ParseRequirements(roots[n], set r | r in roots[..n]);
        OneMoreCovered(files, standalone, claimed0, claimed, roots, read, more);
        assert roots[..n + 1] == roots[..n] + [roots[n]];
        found, read := found + [pins], read + [more];
      }
      EveryFileOnce(files, standalone, claimed, roots, read);
    }
  }

  /** What parsing one root leaves behind: it read its own file and the ones claimed
      for it, nothing else, and every include of theirs is settled. */
  ghost predicate Covers(files: Directory, standalone: set<File>, claimed: map<File, File>, root: File, read: set<File>) {
    && root in read
    && (forall f | f in read :: Owned(standalone, claimed, root, f) && Reachable(files, standalone, f))
    && (forall t | t in claimed && claimed[t] == root :: t in read)
    && (forall f | f in read :: Closed(files, standalone, claimed, root, read, f))
  }

  /** The first roots are done. */
  ghost predicate AllCovered(
    files: Directory, standalone: set<File>, claimed: map<File, File>, roots: seq<File>, read: seq<set<File>>)
  {
    |read| <= |roots| && forall i | 0 <= i < |read| :: Covers(files, standalone, claimed, roots[i], read[i])
  }

  lemma OneMoreCovered(
    files: Directory, standalone: set<File>, before: map<File, File>, after: map<File, File>, roots: seq<File>,
    read: seq<set<File>>, more: set<File>)
    requires AllCovered(files, standalone, before, roots, read) && |read| < |roots|
    requires forall i, j | 0 <= i < j < |roots| :: roots[i] != roots[j]
    requires Covers(files, standalone, after, roots[|read|], more)
    requires forall t | t in before :: t in after && after[t] == before[t]
    requires forall t | t in after && t !in before :: after[t] == roots[|read|]
    ensures AllCovered(files, standalone, after, roots, read + [more])
  {
  }

  /** A file that can be reached is read under exactly one root, and no other file is. */
  lemma EveryFileOnce(
    files: Directory, standalone: set<File>, claimed: map<File, File>, roots: seq<File>, read: seq<set<File>>)
    requires |read| == |roots| && standalone == (set r | r in roots)
    requires forall i, j | 0 <= i < j < |roots| :: roots[i] != roots[j]
    requires forall t | t in claimed :: t !in standalone && claimed[t] in standalone
    requires AllCovered(files, standalone, claimed, roots, read)
    ensures forall f :: Reachable(files, standalone, f) <==> exists i: nat :: i < |read| && f in read[i]
    ensures forall f, i: nat, j: nat | i < |read| && j < |read| && f in read[i] && f in read[j] :: i == j
  {
    forall f, i: nat, j: nat | i < |read| && j < |read| && f in read[i] && f in read[j] ensures i == j {
      OneOwner(standalone, claimed, roots, i, j, f);
    }
    forall f | Reachable(files, standalone, f) ensures exists i: nat :: i < |read| && f in read[i] {
      ReachableIsRead(files, standalone, claimed, roots, read, f);
    }
    forall f, i: nat | i < |read| && f in read[i] ensures Reachable(files, standalone, f) {
      assert Covers(files, standalone, claimed, roots[i], read[i]);
    }
  }

  lemma OneOwner(standalone: set<File>, claimed: map<File, File>, roots: seq<File>, i: nat, j: nat, f: File)
    requires standalone == (set r | r in roots) && i < |roots| && j < |roots|
    requires forall a, b | 0 <= a < b < |roots| :: roots[a] != roots[b]
    requires Owned(standalone, claimed, roots[i], f) && Owned(standalone, claimed, roots[j], f)
    ensures i == j
  {
  }

  lemma ReachableIsRead(
    files: Directory, standalone: set<File>, claimed: map<File, File>, roots: seq<File>, read: seq<set<File>>, f: File)
    requires |read| == |roots| && standalone == (set r | r in roots)
    requires forall t | t in claimed :: t !in standalone && claimed[t] in standalone
    requires AllCovered(files, standalone, claimed, roots, read)
    requires Reachable(files, standalone, f)
    ensures exists i: nat :: i < |read| && f in read[i]
  {
    var chain :| IsChain(files, standalone, chain) && chain[|chain| - 1] == f;
    ChainIsRead(files, standalone, claimed, roots, read, chain);
  }

  lemma {:induction false} ChainIsRead(
    files: Directory, standalone: set<File>, claimed: map<File, File>, roots: seq<File>, read: seq<set<File>>, chain: seq<File>)
    requires |read| == |roots| && standalone == (set r | r in roots)
    requires forall t | t in claimed :: t !in standalone && claimed[t] in standalone
    requires AllCovered(files, standalone, claimed, roots, read)
    requires IsChain(files, standalone, chain)
    ensures exists i: nat :: i < |read| && chain[|chain| - 1] in read[i]
    decreases |chain|
  {
    var t := chain[|chain| - 1];
    if t in standalone {
      var i :| 0 <= i < |roots| && roots[i] == t;
      assert t in read[i];
    } else {
      var init := chain[..|chain| - 1];
      assert forall i | 0 < i < |init| :: Includes(files, init[i - 1], init[i]) by {
        assert forall i | 0 <= i < |init| :: init[i] == chain[i];
      }
      ChainIsRead(files, standalone, claimed, roots, read, init);
      var f := init[|init| - 1];
      var i: nat :| i < |read| && f in read[i];
      IncludedIsRead(files, standalone, claimed, roots, read, i, f, t);
    }
  }

  /** What a file that was read includes was read, there or under the root it is
      claimed for. */
  lemma IncludedIsRead(
    files: Directory, standalone: set<File>, claimed: map<File, File>, roots: seq<File>, read: seq<set<File>>,
    i: nat, f: File, t: File)
    requires |read| == |roots| && standalone == (set r | r in roots)
    requires forall t | t in claimed :: t !in standalone && claimed[t] in standalone
    requires AllCovered(files, standalone, claimed, roots, read)
    requires i < |read| && f in read[i] && Includes(files, f, t) && t !in standalone
    ensures exists j: nat :: j < |read| && t in read[j]
  {
    assert Covers(files, standalone, claimed, roots[i], read[i]);
    IncludeIsSettled(files, standalone, claimed, roots[i], read[i], f, t);
    if t !in read[i] {
      ClaimedIsRead(files, standalone, claimed, roots, read, t);
    }
  }

  lemma IncludeIsSettled(
    files: Directory, standalone: set<File>, claimed: map<File, File>, root: File, read: set<File>, f: File, t: File)
    requires Covers(files, standalone, claimed, root, read) && f in read && Includes(files, f, t)
    ensures Settled(standalone, claimed, root, read, t)
  {
  }

  lemma ClaimedIsRead(
    files: Directory, standalone: set<File>, claimed: map<File, File>, roots: seq<File>, read: seq<set<File>>, t: File)
    requires |read| == |roots| && AllCovered(files, standalone, claimed, roots, read)
    requires t in claimed && claimed[t] in roots
    ensures exists j: nat :: j < |read| && t in read[j]
  {
  }

  /** So every pin of every file that can be reached is audited, under the one root that
      reads the file, and nothing else is. */
  lemma EveryPinAudited(files: Directory, roots: set<File>, found: seq<seq<Key>>, read: seq<set<File>>, k: Key)
    requires |found| == |read|
    requires forall f :: Reachable(files, roots, f) <==> exists i: nat :: i < |read| && f in read[i]
    requires forall i: nat | i < |found| :: Lists(files, found[i], [], read[i])
    ensures (exists i: nat :: i < |found| && k in found[i]) <==> exists f :: Reachable(files, roots, f) && Pinned(files, f, k)
  {
  }
}
