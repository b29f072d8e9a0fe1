/** Provisioning of the per-request workspace: `copyRecursiveSync` copies the
    template project tree into a scratch directory, skipping every entry
    whose base name is in an exclusion list, at every depth.

    The template is a read-only tree given as a value (`Entry`); the
    destination is the mutable file system (`FileSystem`), a map from paths
    (lists of path components) to nodes, which the copy updates in place.
    Whether `chmod` succeeds is decided by the environment: `denied` is the
    set of destination paths on which it fails. */
module Workspace {
  import opened Common

  /** An absolute path as its list of components. */
  type Path = seq<string>

  /** A node of the template tree, with its base name. */
  datatype Entry =
    | File(name: string, content: string, mode: nat)
    | Directory(name: string, children: seq<Entry>)

  /** A node of the destination file system. */
  datatype Node = Dir | RegularFile(content: string, mode: nat)

  /** `0o666`, the mode each copied file is given. */
  const WritableMode: nat := 438

  /** The exclusion list of the template copy: build output, caches,
      broadcast logs and version-control metadata. */
  const TemplateExcludes: seq<string> := ["out", "cache", "broadcast", ".git"]

  /** The names of a directory's children. */
  function Names(cs: seq<Entry>): set<string>
  {
    set c | c in cs :: c.name
  }

  /** No two children of a directory share a name, as on any file system. */
  predicate DistinctNames(cs: seq<Entry>)
  {
    forall i, j :: 0 <= i < j < |cs| ==> cs[i].name != cs[j].name
  }

  /** Every directory of the tree has distinctly named children. */
  predicate WellFormed(e: Entry)
    decreases e
  {
    match e
    case File(_, _, _) => true
    case Directory(_, cs) => DistinctNames(cs) && forall c | c in cs :: WellFormed(c)
  }

  /** The child called `n`, if any. */
  function Find(cs: seq<Entry>, n: string): Option<Entry>
  {
    if |cs| == 0 then None
    else if cs[|cs| - 1].name == n then Some(cs[|cs| - 1])
    else Find(cs[..|cs| - 1], n)
  }

  /** The entry reached from `e` by following the names in `rel`. */
  function Lookup(e: Entry, rel: Path): Option<Entry>
    decreases |rel|
  {
    if rel == [] then Some(e)
    else match e
      case File(_, _, _) => None
      case Directory(_, cs) =>
        match Find(cs, rel[0])
        case None => None
        case Some(c) => Lookup(c, rel[1..])
  }

  /** Neither the root nor any name on the way down `rel` is excluded. */
  predicate Kept(e: Entry, rel: Path, excludes: seq<string>)
  {
    e.name !in excludes && forall j | 0 <= j < |rel| :: rel[j] !in excludes
  }

  /** What a template entry becomes once copied to `at`: a directory, or a
      file with the same content whose mode is `0o666` unless `chmod` failed
      there, in which case it keeps the template file's mode. */
  function NodeFor(e: Entry, at: Path, denied: set<Path>): Node
  {
    match e
    case File(_, content, mode) => RegularFile(content, if at in denied then mode else WritableMode)
    case Directory(_, _) => Dir
  }

  /** The nodes the copy of `e` to `dest` writes. */
  function Copy(e: Entry, dest: Path, excludes: seq<string>, denied: set<Path>): map<Path, Node>
    decreases e
  {
    if e.name in excludes then map[]
    else match e
      case File(_, _, _) => map[dest := NodeFor(e, dest, denied)]
      case Directory(_, cs) => map[dest := Dir] + CopyChildren(cs, dest, excludes, denied)
  }

  /** The nodes written by copying each child, in listing order, to the same
      name under `dest`. */
  function CopyChildren(cs: seq<Entry>, dest: Path, excludes: seq<string>, denied: set<Path>): map<Path, Node>
    decreases cs
  {
    if |cs| == 0 then map[]
    else CopyChildren(cs[..|cs| - 1], dest, excludes, denied)
         + Copy(cs[|cs| - 1], dest + [cs[|cs| - 1].name], excludes, denied)
  }

  /** The paths the copy of `e` warns about, in order: the copied files on
      which `chmod` failed. */
  function Warnings(e: Entry, dest: Path, excludes: seq<string>, denied: set<Path>): seq<Path>
    decreases e
  {
    if e.name in excludes then []
    else match e
      case File(_, _, _) => if dest in denied then [dest] else []
      case Directory(_, cs) => WarningsChildren(cs, dest, excludes, denied)
  }

  /** The warnings of copying each child, in listing order. */
  function WarningsChildren(cs: seq<Entry>, dest: Path, excludes: seq<string>, denied: set<Path>): seq<Path>
    decreases cs
  {
    if |cs| == 0 then []
    else WarningsChildren(cs[..|cs| - 1], dest, excludes, denied)
         + Warnings(cs[|cs| - 1], dest + [cs[|cs| - 1].name], excludes, denied)
  }

  /** The parent of `p` exists and is a directory. */
  predicate ParentIsDir(nodes: map<Path, Node>, p: Path)
  {
    |p| > 0 && p[..|p| - 1] in nodes && nodes[p[..|p| - 1]] == Dir
  }

  /** The destination holds no node of the wrong kind where the copy writes:
      no file where a directory is to be created, no directory where a file
      is to be copied. The copy does not throw exactly then. */
  predicate Compatible(nodes: map<Path, Node>, e: Entry, dest: Path, excludes: seq<string>)
    decreases e
  {
    e.name in excludes ||
    match e
    case File(_, _, _) => dest !in nodes || nodes[dest].RegularFile?
    case Directory(_, cs) =>
      (dest !in nodes || nodes[dest] == Dir)
      && forall c | c in cs :: Compatible(nodes, c, dest + [c.name], excludes)
  }

  /** Two file systems agree on everything at or below `p`. */
  ghost predicate AgreeBelow(m1: map<Path, Node>, m2: map<Path, Node>, p: Path)
  {
    forall k | IsPrefix(p, k) :: (k in m1 <==> k in m2) && (k in m1 ==> m1[k] == m2[k])
  }

  lemma PrefixOfExtension(p: Path, n: string, k: Path)
    requires IsPrefix(p + [n], k)
    ensures IsPrefix(p, k)
  {
    assert k[..|p|] == k[..|p| + 1][..|p|];
  }

  /** Compatibility depends only on what lies at or below the destination. */
  lemma {:induction false} CompatibleFrame(m1: map<Path, Node>, m2: map<Path, Node>, e: Entry, p: Path, excludes: seq<string>)
    requires AgreeBelow(m1, m2, p) && Compatible(m1, e, p, excludes)
    ensures Compatible(m2, e, p, excludes)
    decreases e
  {
    assert IsPrefix(p, p);
    if e.name !in excludes && e.Directory? {
      forall c | c in e.children
        ensures Compatible(m2, c, p + [c.name], excludes)
      {
        forall k | IsPrefix(p + [c.name], k)
          ensures (k in m1 <==> k in m2) && (k in m1 ==> m1[k] == m2[k])
        {
          PrefixOfExtension(p, c.name, k);
        }
        CompatibleFrame(m1, m2, c, p + [c.name], excludes);
      }
    }
  }

  /** Nothing exists at or below `p`. */
  predicate Vacant(nodes: map<Path, Node>, p: Path)
  {
    forall k | k in nodes :: !IsPrefix(p, k)
  }

  /** A vacant destination clashes with nothing the copy writes. */
  lemma {:induction false} VacantCompatible(nodes: map<Path, Node>, e: Entry, p: Path, excludes: seq<string>)
    requires Vacant(nodes, p)
    ensures Compatible(nodes, e, p, excludes)
    decreases e
  {
    assert IsPrefix(p, p);
    if e.name !in excludes && e.Directory? {
      forall c | c in e.children
        ensures Compatible(nodes, c, p + [c.name], excludes)
      {
        forall k | k in nodes
          ensures !IsPrefix(p + [c.name], k)
        {
          if IsPrefix(p + [c.name], k) {
            PrefixOfExtension(p, c.name, k);
          }
        }
        VacantCompatible(nodes, c, p + [c.name], excludes);
      }
    }
  }

  /** Every node the copy writes lies at or below the destination. */
  lemma {:induction false} CopyUnder(e: Entry, dest: Path, excludes: seq<string>, denied: set<Path>)
    ensures forall k | k in Copy(e, dest, excludes, denied) :: IsPrefix(dest, k)
    decreases e, 1
  {
    if e.name !in excludes && e.Directory? {
      CopyChildrenUnder(e.children, dest, excludes, denied);
    }
  }

  /** Every node written for the children lies strictly below the
      destination, under the name of one of them. */
  lemma {:induction false} CopyChildrenUnder(cs: seq<Entry>, dest: Path, excludes: seq<string>, denied: set<Path>)
    ensures forall k | k in CopyChildren(cs, dest, excludes, denied) ::
              |k| > |dest| && k[..|dest|] == dest && k[|dest|] in Names(cs)
    decreases cs, 0
  {
    if |cs| > 0 {
      var init, last := cs[..|cs| - 1], cs[|cs| - 1];
      CopyChildrenUnder(init, dest, excludes, denied);
      CopyUnder(last, dest + [last.name], excludes, denied);
      forall k | k in CopyChildren(cs, dest, excludes, denied)
        ensures |k| > |dest| && k[..|dest|] == dest && k[|dest|] in Names(cs)
      {
        if k in Copy(last, dest + [last.name], excludes, denied) {
          assert k[..|dest| + 1] == dest + [last.name];
          assert k[..|dest|] == k[..|dest| + 1][..|dest|];
          assert k[|dest|] == k[..|dest| + 1][|dest|];
        } else {
          assert k in CopyChildren(init, dest, excludes, denied);
          assert Names(init) <= Names(cs) by {
            forall c | c in init ensures c in cs { }
          }
        }
      }
    }
  }

  /** No node the copy writes carries an excluded name anywhere below the
      destination, and nothing at all is written when the root itself is
      excluded. */
  lemma {:induction false} NothingExcludedCopied(e: Entry, dest: Path, excludes: seq<string>, denied: set<Path>)
    ensures forall k | k in Copy(e, dest, excludes, denied) ::
              e.name !in excludes && |dest| <= |k| && forall j | |dest| <= j < |k| :: k[j] !in excludes
    decreases e, 1
  {
    CopyUnder(e, dest, excludes, denied);
    if e.name !in excludes && e.Directory? {
      NothingExcludedInChildren(e.children, dest, excludes, denied);
    }
  }

  /** Below the destination, the children's copies carry no excluded name. */
  lemma {:induction false} NothingExcludedInChildren(cs: seq<Entry>, dest: Path, excludes: seq<string>, denied: set<Path>)
    ensures forall k | k in CopyChildren(cs, dest, excludes, denied) ::
              |dest| <= |k| && forall j | |dest| <= j < |k| :: k[j] !in excludes
    decreases cs, 0
  {
    if |cs| > 0 {
      var init, last := cs[..|cs| - 1], cs[|cs| - 1];
      NothingExcludedInChildren(init, dest, excludes, denied);
      NothingExcludedCopied(last, dest + [last.name], excludes, denied);
      forall k | k in CopyChildren(cs, dest, excludes, denied)
        ensures |dest| <= |k| && forall j | |dest| <= j < |k| :: k[j] !in excludes
      {
        if k in Copy(last, dest + [last.name], excludes, denied) {
          CopyUnder(last, dest + [last.name], excludes, denied);
          assert k[..|dest| + 1] == dest + [last.name];
          assert k[|dest|] == last.name;
        }
      }
    }
  }

  /** The copy warns exactly about copied files whose `chmod` failed: each
      warned path is a file the copy wrote and a path where `chmod` fails,
      and each file the copy wrote where `chmod` fails is warned about. */
  lemma {:induction false} WarningsSound(e: Entry, dest: Path, excludes: seq<string>, denied: set<Path>)
    requires WellFormed(e)
    ensures forall p | p in Warnings(e, dest, excludes, denied) ::
              p in denied && p in Copy(e, dest, excludes, denied) && Copy(e, dest, excludes, denied)[p].RegularFile?
    ensures forall p | p in Copy(e, dest, excludes, denied) && Copy(e, dest, excludes, denied)[p].RegularFile? && p in denied ::
              p in Warnings(e, dest, excludes, denied)
    decreases e, 1
  {
    WarningsComplete(e, dest, excludes, denied);
    if e.name !in excludes && e.Directory? {
      WarningsChildrenSound(e.children, dest, excludes, denied);
      CopyChildrenUnder(e.children, dest, excludes, denied);
      forall p | p in WarningsChildren(e.children, dest, excludes, denied)
        ensures p != dest
      {
        assert |p| > |dest|;
      }
    }
  }

  lemma {:induction false} WarningsChildrenSound(cs: seq<Entry>, dest: Path, excludes: seq<string>, denied: set<Path>)
    requires DistinctNames(cs) && forall c | c in cs :: WellFormed(c)
    ensures forall p | p in WarningsChildren(cs, dest, excludes, denied) ::
              p in denied && p in CopyChildren(cs, dest, excludes, denied)
              && CopyChildren(cs, dest, excludes, denied)[p].RegularFile?
    decreases cs, 0
  {
    if |cs| > 0 {
      var init, last := cs[..|cs| - 1], cs[|cs| - 1];
      assert last in cs;
      assert DistinctNames(init);
      WarningsChildrenSound(init, dest, excludes, denied);
      WarningsSound(last, dest + [last.name], excludes, denied);
      CopyChildrenUnder(init, dest, excludes, denied);
      CopyUnder(last, dest + [last.name], excludes, denied);
      forall c | c in init
        ensures c.name != last.name
      {
        var i :| 0 <= i < |init| && init[i] == c;
        assert cs[i].name != cs[|cs| - 1].name;
      }
      forall p | p in WarningsChildren(init, dest, excludes, denied)
        ensures p !in Copy(last, dest + [last.name], excludes, denied)
      {
        assert p[|dest|] in Names(init);
        assert p[|dest|] != last.name;
        assert (dest + [last.name])[|dest|] == last.name;
      }
    }
  }

  /** Each copied file where `chmod` fails is among the warnings. */
  lemma {:induction false} WarningsComplete(e: Entry, dest: Path, excludes: seq<string>, denied: set<Path>)
    ensures forall p | p in Copy(e, dest, excludes, denied) && Copy(e, dest, excludes, denied)[p].RegularFile? && p in denied ::
              p in Warnings(e, dest, excludes, denied)
    decreases e, 1
  {
    if e.name !in excludes && e.Directory? {
      WarningsChildrenComplete(e.children, dest, excludes, denied);
    }
  }

  /** The same, for the children of a directory. */
  lemma {:induction false} WarningsChildrenComplete(cs: seq<Entry>, dest: Path, excludes: seq<string>, denied: set<Path>)
    ensures forall p | p in CopyChildren(cs, dest, excludes, denied) && CopyChildren(cs, dest, excludes, denied)[p].RegularFile? && p in denied ::
              p in WarningsChildren(cs, dest, excludes, denied)
    decreases cs, 0
  {
    if |cs| > 0 {
      var init, last := cs[..|cs| - 1], cs[|cs| - 1];
      WarningsChildrenComplete(init, dest, excludes, denied);
      WarningsComplete(last, dest + [last.name], excludes, denied);
    }
  }

  /** The child found by name is one of the children and carries that name. */
  lemma FindSound(cs: seq<Entry>, n: string)
    ensures Find(cs, n).Some? ==> Find(cs, n).value in cs && Find(cs, n).value.name == n
  {
    if |cs| > 0 && cs[|cs| - 1].name != n {
      FindSound(cs[..|cs| - 1], n);
    }
  }

  /** A name no child carries is not found. */
  lemma FindAbsent(cs: seq<Entry>, n: string)
    requires n !in Names(cs)
    ensures Find(cs, n) == None
  {
    if |cs| > 0 {
      assert cs[|cs| - 1] in cs;
      assert Names(cs[..|cs| - 1]) <= Names(cs) by {
        forall c | c in cs[..|cs| - 1] ensures c in cs { }
      }
      FindAbsent(cs[..|cs| - 1], n);
    }
  }

  /** Below `dest + [n]`, the children's copies are exactly the copy of the
      child called `n`. */
  lemma {:induction false} ChildrenAt(cs: seq<Entry>, dest: Path, excludes: seq<string>, denied: set<Path>, n: string, r: Path)
    requires DistinctNames(cs)
    ensures var k := dest + [n] + r;
            ((k in CopyChildren(cs, dest, excludes, denied))
             <==> (Find(cs, n).Some? && k in Copy(Find(cs, n).value, dest + [n], excludes, denied)))
            && (k in CopyChildren(cs, dest, excludes, denied)
               ==> CopyChildren(cs, dest, excludes, denied)[k] == Copy(Find(cs, n).value, dest + [n], excludes, denied)[k])
    decreases cs
  {
    if |cs| > 0 {
      var k := dest + [n] + r;
      var init, last := cs[..|cs| - 1], cs[|cs| - 1];
      assert DistinctNames(init);
      if last.name == n {
        forall c | c in init
          ensures c.name != n
        {
          var i :| 0 <= i < |init| && init[i] == c;
          assert cs[i].name != cs[|cs| - 1].name;
        }
        FindAbsent(init, n);
        ChildrenAt(init, dest, excludes, denied, n, r);
      } else {
        CopyUnder(last, dest + [last.name], excludes, denied);
        assert k[..|dest| + 1] == dest + [n];
        assert (dest + [n])[|dest|] != (dest + [last.name])[|dest|];
        assert !IsPrefix(dest + [last.name], k);
        ChildrenAt(init, dest, excludes, denied, n, r);
      }
    }
  }

  /** The copy, exactly: `dest + rel` is written if and only if `rel` leads
      to an entry of the template through names none of which (nor the
      root's) is excluded, and then it holds that entry's copy. */
  lemma {:induction false} CopyAt(e: Entry, dest: Path, excludes: seq<string>, denied: set<Path>, rel: Path)
    requires WellFormed(e)
    ensures dest + rel in Copy(e, dest, excludes, denied) <==> Kept(e, rel, excludes) && Lookup(e, rel).Some?
    ensures dest + rel in Copy(e, dest, excludes, denied)
            ==> Copy(e, dest, excludes, denied)[dest + rel] == NodeFor(Lookup(e, rel).value, dest + rel, denied)
    decreases |rel|
  {
    var k := dest + rel;
    if e.name in excludes {
    } else if rel == [] {
      assert k == dest;
      if e.Directory? {
        CopyChildrenUnder(e.children, dest, excludes, denied);
      }
    } else {
      CopyUnder(e, dest, excludes, denied);
      match e
      case File(_, _, _) =>
        assert k != dest;
      case Directory(_, cs) =>
        var n, r := rel[0], rel[1..];
        assert k == dest + [n] + r;
        assert k != dest;
        ChildrenAt(cs, dest, excludes, denied, n, r);
        FindSound(cs, n);
        if Find(cs, n).Some? {
          var c := Find(cs, n).value;
          assert WellFormed(c);
          CopyAt(c, dest + [n], excludes, denied, r);
          assert Kept(e, rel, excludes) <==> n !in excludes && Kept(c, r, excludes) by {
            assert forall j | 0 <= j < |r| :: r[j] == rel[j + 1];
            if Kept(c, r, excludes) && n !in excludes {
              forall j | 0 <= j < |rel| ensures rel[j] !in excludes {
                if j > 0 { assert rel[j] == r[j - 1]; }
              }
            }
          }
        }
    }
  }

  /** Before the copy of child `i`: its parent is the directory just made,
      and nothing the earlier children wrote lies where it goes. */
  lemma NextChildReady(start: map<Path, Node>, cs: seq<Entry>, i: nat, dest: Path, excludes: seq<string>, denied: set<Path>)
    requires i < |cs| && DistinctNames(cs)
    requires Compatible(start, cs[i], dest + [cs[i].name], excludes)
    ensures var now := start[dest := Dir] + CopyChildren(cs[..i], dest, excludes, denied);
            ParentIsDir(now, dest + [cs[i].name]) && Compatible(now, cs[i], dest + [cs[i].name], excludes)
  {
    var now := start[dest := Dir] + CopyChildren(cs[..i], dest, excludes, denied);
    var target := dest + [cs[i].name];
    CopyChildrenUnder(cs[..i], dest, excludes, denied);
    assert target[..|target| - 1] == dest;
    forall c | c in cs[..i]
      ensures c.name != cs[i].name
    {
      var j :| 0 <= j < i && cs[j] == c;
    }
    forall k | IsPrefix(target, k)
      ensures (k in start <==> k in now) && (k in start ==> start[k] == now[k])
    {
      assert k[|dest|] == target[|dest|];
      assert k[..|dest|] == k[..|target|][..|dest|];
    }
    CompatibleFrame(start, now, cs[i], target, excludes);
  }

  /** Creating the directory `dest` leaves the children's compatibility
      below it as it was. */
  lemma CompatibleAfterMkdir(m: map<Path, Node>, cs: seq<Entry>, dest: Path, excludes: seq<string>)
    requires forall c | c in cs :: Compatible(m, c, dest + [c.name], excludes)
    ensures forall c | c in cs :: Compatible(m[dest := Dir], c, dest + [c.name], excludes)
  {
    forall c | c in cs
      ensures Compatible(m[dest := Dir], c, dest + [c.name], excludes)
    {
      forall k | IsPrefix(dest + [c.name], k)
        ensures (k in m <==> k in m[dest := Dir]) && (k in m ==> m[k] == m[dest := Dir][k])
      {
        assert |k| > |dest|;
      }
      CompatibleFrame(m, m[dest := Dir], c, dest + [c.name], excludes);
    }
  }

  /** After the copy of child `i`, the nodes and warnings so far are those
      of the first `i + 1` children. */
  lemma NextChildDone(base: map<Path, Node>, warned: seq<Path>, cs: seq<Entry>, i: nat, dest: Path, excludes: seq<string>, denied: set<Path>)
    requires i < |cs|
    ensures base + CopyChildren(cs[..i], dest, excludes, denied) + Copy(cs[i], dest + [cs[i].name], excludes, denied)
         == base + CopyChildren(cs[..i + 1], dest, excludes, denied)
    ensures warned + WarningsChildren(cs[..i], dest, excludes, denied) + Warnings(cs[i], dest + [cs[i].name], excludes, denied)
         == warned + WarningsChildren(cs[..i + 1], dest, excludes, denied)
  {
    assert cs[..i + 1][..i] == cs[..i];
    MapUnionAssoc(base, CopyChildren(cs[..i], dest, excludes, denied), Copy(cs[i], dest + [cs[i].name], excludes, denied));
  }

  lemma MapUnionAssoc<K, V>(a: map<K, V>, b: map<K, V>, c: map<K, V>)
    ensures a + b + c == a + (b + c)
  {
  }

  /** `fs.rmSync(root, { recursive: true, force: true })`: the file system
      without `root` and everything below it; a missing `root` is no error. */
  function RemoveTree(nodes: map<Path, Node>, root: Path): (r: map<Path, Node>)
    ensures Vacant(r, root)
    ensures forall k | k in nodes && !IsPrefix(root, k) :: k in r && r[k] == nodes[k]
    ensures r.Keys <= nodes.Keys
  {
    map k | k in nodes && !IsPrefix(root, k) :: nodes[k]
  }

  /** Two file systems that differ only at or below `root`. */
  predicate SameOutside(m1: map<Path, Node>, m2: map<Path, Node>, root: Path)
  {
    && (forall k | k in m1 && !IsPrefix(root, k) :: k in m2 && m2[k] == m1[k])
    && (forall k | k in m2 && !IsPrefix(root, k) :: k in m1)
  }

  /** Removing `root` forgets whatever was done at or below it, and removes
      nothing from a file system where `root` is vacant. */
  lemma RemoveTreeForgets(m1: map<Path, Node>, m2: map<Path, Node>, root: Path)
    requires SameOutside(m1, m2, root)
    ensures RemoveTree(m2, root) == RemoveTree(m1, root)
    ensures Vacant(m1, root) ==> RemoveTree(m2, root) == m1
  {
  }

  /** Copying a tree to `dest` changes nothing outside `dest`. */
  lemma CopyStaysInside(nodes: map<Path, Node>, e: Entry, dest: Path, excludes: seq<string>, denied: set<Path>)
    ensures SameOutside(nodes, nodes + Copy(e, dest, excludes, denied), dest)
  {
    CopyUnder(e, dest, excludes, denied);
  }

  /** The file system the request handler copies into and writes to. */
  class FileSystem {
    var nodes: map<Path, Node>
    /** `console.warn` output of the copy: the paths whose `chmod` failed. */
    var warnings: seq<Path>

    constructor (initial: map<Path, Node>)
      ensures nodes == initial && warnings == []
    {
      nodes := initial;
      warnings := [];
    }

    /** Recursive, forced removal of `root`. */
    method RemoveRecursive(root: Path)
      modifies this
      ensures nodes == RemoveTree(old(nodes), root) && warnings == old(warnings)
    {
      nodes := RemoveTree(nodes, root);
    }

    /** `copyRecursiveSync(src, dest, excludes)`: an excluded base name stops
        the copy of that entry; a directory is created at `dest` if absent
        and each child is copied to the same name under it; a file is copied
        and then made `0o666`, a failing `chmod` being only warned about. */
    method CopyRecursive(src: Entry, dest: Path, excludes: seq<string>, denied: set<Path>)
      requires WellFormed(src)
      requires ParentIsDir(nodes, dest)
      requires Compatible(nodes, src, dest, excludes)
      modifies this
      ensures nodes == old(nodes) + Copy(src, dest, excludes, denied)
      ensures warnings == old(warnings) + Warnings(src, dest, excludes, denied)
      decreases src, 1
    {
      if src.name in excludes {
        return;
      }
      match src
      case File(_, content, mode) =>
        nodes := nodes[dest := RegularFile(content, mode)];
        if dest in denied {
          warnings := warnings + [dest];
        } else {
          nodes := nodes[dest := RegularFile(content, WritableMode)];
        }
      case Directory(_, children) =>
        if dest !in nodes {
          nodes := nodes[dest := Dir];
        }
        assert nodes == old(nodes)[dest := Dir];
        CompatibleAfterMkdir(old(nodes), children, dest, excludes);
        CopyEachChild(children, dest, excludes, denied);
        MapUnionAssoc(old(nodes), map[dest := Dir], CopyChildren(children, dest, excludes, denied));
    }

    /** The `forEach` over a directory's listing: each child is copied, in
        order, to the same name under `dest`, which is already a directory. */
    method CopyEachChild(children: seq<Entry>, dest: Path, excludes: seq<string>, denied: set<Path>)
      requires DistinctNames(children) && forall c | c in children :: WellFormed(c)
      requires dest in nodes && nodes[dest] == Dir
      requires forall c | c in children :: Compatible(nodes, c, dest + [c.name], excludes)
      modifies this
      ensures nodes == old(nodes) + CopyChildren(children, dest, excludes, denied)
      ensures warnings == old(warnings) + WarningsChildren(children, dest, excludes, denied)
      decreases children, 0
    {
      var i := 0;
      while i < |children|
        invariant 0 <= i <= |children|
        invariant nodes == old(nodes) + CopyChildren(children[..i], dest, excludes, denied)
        invariant warnings == old(warnings) + WarningsChildren(children[..i], dest, excludes, denied)
      {
        assert children[i] in children;
        assert old(nodes)[dest := Dir] == old(nodes);
        NextChildReady(old(nodes), children, i, dest, excludes, denied);
        CopyRecursive(children[i], dest + [children[i].name], excludes, denied);
        NextChildDone(old(nodes), old(warnings), children, i, dest, excludes, denied);
        i := i + 1;
      }
      assert children[..|children|] == children;
    }
  }
}
