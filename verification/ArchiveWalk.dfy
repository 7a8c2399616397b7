/** Extraction of an uploaded source archive: entries checked one by one and written into a tree with links. */
module ArchiveWalk {
  import opened Wrappers
  import opened ArchivePaths
  import opened Sequences

  const MAX_EXTRACTED_BYTES: nat := 4 * 1024 * 1024 * 1024
  const MAX_ENTRIES: nat := 200_000
  const MAX_U64: nat := 0xFFFF_FFFF_FFFF_FFFF

  type U64 = x: nat | x <= MAX_U64

  datatype Kind = Regular | Directory | Symlink | HardLink | Unsupported

  /**
   One entry of the stream. `path` and `target` are absent when they cannot be read; `content` stands for
   the bytes of a file; `extracts` says whether the file system lets the entry be created.
   */
  datatype Entry =
    | Unreadable
    | Entry(path: Option<seq<Component>>, kind: Kind, target: Option<seq<Component>>,
            size: U64, content: nat, extracts: bool)

  datatype ArchiveError =
    InvalidArchive | TooManyEntries | BadPath | UnderSymlink | BadLink | UnsupportedType | TooLarge | NotExtracted

  /** What stands at a path of the destination. Missing directories on the way are created. */
  datatype Node = Folder | File(content: nat) | Link(target: seq<Component>)

  type Tree = map<Path, Node>

  function LinksOf(tree: Tree): map<Path, seq<Component>> {
    map p | p in tree && tree[p].Link? :: tree[p].target
  }

  ghost predicate LinkFree(tree: Tree) {
    forall p <- tree :: !tree[p].Link?
  }

  function EntryPath(e: Entry): Path {
    if e.Entry? && e.path.Some? then Names(e.path.value) else []
  }

  predicate HasTarget(e: Entry) {
    e.Entry? && (e.kind.Symlink? || e.kind.HardLink? ==> e.target.Some?)
  }

  /** The node an entry makes; a hard link shares the file at `source`. */
  function Made(tree: Tree, e: Entry, source: Option<Path>): Option<Node>
    requires HasTarget(e)
  {
    match e.kind
    case Regular => Some(File(e.content))
    case Directory => Some(Folder)
    case Symlink => Some(Link(e.target.value))
    case HardLink =>
      if source.Some? && source.value in tree && tree[source.value].File? then Some(tree[source.value]) else None
    case Unsupported => None
  }

  /** A directory already there is kept; anything else is replaced. */
  function Put(tree: Tree, at: Path, node: Node): Tree {
    if node.Folder? && at in tree then tree else tree[at := node]
  }

  function SourcePath(e: Entry): Path {
    if e.Entry? && e.target.Some? then Names(e.target.value) else []
  }

  /** The extraction directory. The file system follows the links it meets. */
  class Destination {
    var tree: Tree

    constructor ()
      ensures tree == map[]
    {
      tree := map[];
    }

    method Extract(path: Path, e: Entry) returns (ok: bool)
      requires HasTarget(e)
      modifies this
      ensures
        var at := Landing(LinksOf(old(tree)), path);
        var node := Made(old(tree), e, Landing(LinksOf(old(tree)), SourcePath(e)));
        && (ok <==> e.extracts && at.Some? && node.Some?)
        && tree == if ok then Put(old(tree), at.value, node.value) else old(tree)
    {
      var at := Landing(LinksOf(tree), path);
      var node := Made(tree, e, Landing(LinksOf(tree), SourcePath(e)));
      ok := e.extracts && at.Some? && node.Some?;
      if ok {
        tree := Put(tree, at.value, node.value);
      }
    }
  }

  // ----- what a stream means, links never followed

  function LinksAfter(links: set<Path>, e: Entry): set<Path> {
    if e.Entry? && e.kind.Symlink? && EntryPath(e) != [] then links + {EntryPath(e)} else links
  }

  function BytesAfter(bytes: nat, e: Entry): nat {
    if e.Entry? && EntryPath(e) != [] then bytes + e.size else bytes
  }

  /** The entry placed at the path it names. */
  function TreeAfter(tree: Tree, e: Entry): Tree {
    if EntryPath(e) == [] || !HasTarget(e) then tree
    else match Made(tree, e, Some(SourcePath(e)))
      case None => tree
      case Some(node) => Put(tree, EntryPath(e), node)
  }

  /** Paths of the symlinks among the entries. */
  function LinkPaths(entries: seq<Entry>): set<Path> {
    if entries == [] then {} else LinksAfter(LinkPaths(entries[..|entries| - 1]), entries[|entries| - 1])
  }

  /** Announced size of everything below the archive root. */
  function Bytes(entries: seq<Entry>): nat {
    if entries == [] then 0 else BytesAfter(Bytes(entries[..|entries| - 1]), entries[|entries| - 1])
  }

  /** The tree with every entry placed at the path it names. */
  function Built(base: Tree, entries: seq<Entry>): Tree {
    if entries == [] then base else TreeAfter(Built(base, entries[..|entries| - 1]), entries[|entries| - 1])
  }

  /** Exactly the symlinks below the archive root are recorded, each under its own path. */
  lemma {:induction false} LinkPathsExactly(entries: seq<Entry>, p: Path)
    ensures p in LinkPaths(entries) <==>
            p != [] && exists e <- entries :: e.Entry? && e.kind.Symlink? && EntryPath(e) == p
  {
    if entries != [] {
      var init, last := entries[..|entries| - 1], entries[|entries| - 1];
      LinkPathsExactly(init, p);
      assert entries == init + [last];
    }
  }

  /** Nothing in a stream without symlinks is nested under one. */
  lemma NothingNestedWithoutSymlinks(entries: seq<Entry>, path: Path)
    requires forall e <- entries :: e.Entry? ==> !e.kind.Symlink?
    ensures !UnderAny(path, LinkPaths(entries))
  {
    forall p ensures p !in LinkPaths(entries) {
      LinkPathsExactly(entries, p);
    }
  }

  /** The byte count is the sum of the announced sizes of the entries below the archive root. */
  lemma {:induction false} BytesAppend(a: seq<Entry>, b: seq<Entry>)
    ensures Bytes(a + b) == Bytes(a) + Bytes(b)
    ensures |b| == 1 ==> Bytes(b) == if EntryPath(b[0]) != [] then b[0].size else 0
  {
    if b == [] {
      assert a + b == a;
    } else {
      var init, last := b[..|b| - 1], b[|b| - 1];
      BytesAppend(a, init);
      assert (a + b)[..|a + b| - 1] == a + init && (a + b)[|a + b| - 1] == last;
    }
  }

  lemma OneEntryFurther(base: Tree, entries: seq<Entry>, i: nat)
    requires i < |entries|
    ensures LinkPaths(entries[..i + 1]) == LinksAfter(LinkPaths(entries[..i]), entries[i])
    ensures Bytes(entries[..i + 1]) == BytesAfter(Bytes(entries[..i]), entries[i])
    ensures Built(base, entries[..i + 1]) == TreeAfter(Built(base, entries[..i]), entries[i])
  {
    assert entries[..i + 1][..i] == entries[..i] && entries[..i + 1][i] == entries[i];
  }

  predicate IsAbsoluteTarget(target: seq<Component>) {
    target != [] && target[0].RootDir?
  }

  /** A relative target that leads nowhere above the root, read from the link's own directory. */
  predicate TargetContained(path: Path, target: seq<Component>) {
    path != [] && !IsAbsoluteTarget(target) && Lexical(Components(path[..|path| - 1]) + target).Some?
  }

  lemma {:induction false} DirectoryResolves(at: Path, path: Path, todo: seq<Component>)
    ensures LexicalFrom(at, Components(path) + todo) == LexicalFrom(at + path, todo)
    decreases |path|
  {
    if path == [] {
      assert Components(path) + todo == todo && at + path == at;
    } else {
      FirstComponent(path, todo);
      DirectoryResolves(at + [path[0]], path[1..], todo);
      Associative(at, [path[0]], path[1..]);
      assert path == [path[0]] + path[1..];
    }
  }

  /** A link's target is contained when it is relative and never climbs above the root from the link's directory. */
  lemma TargetContainedExactly(path: Path, target: seq<Component>)
    requires path != []
    ensures TargetContained(path, target) <==> IsRelative(target) && StaysBelow(|path| - 1, target)
  {
    var directory := path[..|path| - 1];
    DirectoryResolves([], directory, target);
    assert [] + directory == directory;
    assert Lexical(Components(directory) + target) == LexicalFrom(directory, target);
    LexicalFromExactly(directory, target);
    assert |directory| == |path| - 1;
    assert target != [] ==> target[0] in target;
  }

  ghost predicate LinkAllowed(e: Entry, links: set<Path>)
    requires e.Entry?
  {
    && (e.kind.Symlink? ==> e.target.Some? && TargetContained(EntryPath(e), e.target.value))
    && (e.kind.HardLink? ==> e.target.Some? && AllPlain(e.target.value)
                             && SourcePath(e) != [] && SourcePath(e) !in links && !UnderAny(SourcePath(e), links))
  }

  /** What an entry below the archive root has to satisfy, given what was extracted before it. */
  ghost predicate Extractable(tree: Tree, links: set<Path>, bytes: nat, e: Entry)
    requires e.Entry?
  {
    && !UnderAny(EntryPath(e), links)
    && LinkAllowed(e, links)
    && BytesAfter(bytes, e) <= MAX_EXTRACTED_BYTES
    && e.extracts && Made(tree, e, Some(SourcePath(e))).Some?
  }

  /** What the entry with index `i` has to satisfy, given what was extracted before it. */
  ghost predicate Acceptable(tree: Tree, links: set<Path>, bytes: nat, i: nat, e: Entry) {
    && i < MAX_ENTRIES
    && e.Entry? && e.path.Some? && AllPlain(e.path.value)
    && (EntryPath(e) != [] ==> Extractable(tree, links, bytes, e))
  }

  /** Entry `i` is acceptable after all entries before it were extracted. */
  ghost predicate Accepted(base: Tree, entries: seq<Entry>, i: nat)
    requires i < |entries|
  {
    Acceptable(Built(base, entries[..i]), LinkPaths(entries[..i]), Bytes(entries[..i]), i, entries[i])
  }

  ghost predicate AcceptedUpTo(base: Tree, entries: seq<Entry>, n: nat)
    requires n <= |entries|
  {
    forall i :: 0 <= i < n ==> Accepted(base, entries, i)
  }

  /** Links in the tree were recorded, and their targets resolve lexically inside the root. */
  ghost predicate LinksKnown(tree: Tree, links: set<Path>) {
    forall p <- tree :: tree[p].Link? ==> p in links && TargetContained(p, tree[p].target)
  }

  lemma LinksStayKnown(tree: Tree, links: set<Path>, bytes: nat, i: nat, e: Entry)
    requires LinksKnown(tree, links) && Acceptable(tree, links, bytes, i, e)
    ensures LinksKnown(TreeAfter(tree, e), LinksAfter(links, e))
  {
  }

  /** After any accepted entries, every link in the tree is recorded and its target lexically contained. */
  lemma {:induction false} LinksRecordedAndContained(base: Tree, entries: seq<Entry>, n: nat)
    requires LinkFree(base) && n <= |entries| && AcceptedUpTo(base, entries, n)
    ensures LinksKnown(Built(base, entries[..n]), LinkPaths(entries[..n]))
  {
    if n > 0 {
      var before := entries[..n - 1];
      LinksRecordedAndContained(base, entries, n - 1);
      assert Accepted(base, entries, n - 1);
      LinksStayKnown(Built(base, before), LinkPaths(before), Bytes(before), n - 1, entries[n - 1]);
      OneEntryFurther(base, entries, n - 1);
    }
  }

  /** With its links known, the file system resolves a path that is under none of them to that path. */
  lemma LandsAsNamed(tree: Tree, links: set<Path>, path: Path)
    requires LinksKnown(tree, links) && !UnderAny(path, links)
    ensures Landing(LinksOf(tree), path) == Some(path)
  {
    LandsOnItself(LinksOf(tree), path);
  }

  /**
   Every write is contained: the path is relative, non-empty and free of `..`, no directory above it is an
   extracted symlink, and so the file system, following links, creates it at the very path it names.
   */
  lemma WritesAreContained(base: Tree, entries: seq<Entry>, i: nat)
    requires LinkFree(base) && i < |entries| && AcceptedUpTo(base, entries, i + 1) && EntryPath(entries[i]) != []
    ensures entries[i].Entry? && entries[i].path.Some? && AllPlain(entries[i].path.value)
    ensures !UnderAny(EntryPath(entries[i]), LinkPaths(entries[..i]))
    ensures Landing(LinksOf(Built(base, entries[..i])), EntryPath(entries[i])) == Some(EntryPath(entries[i]))
    ensures i < MAX_ENTRIES && Bytes(entries[..i + 1]) <= MAX_EXTRACTED_BYTES
    // a hard link shares a file that is neither a recorded symlink nor below one
    ensures entries[i].kind.HardLink? ==>
              && entries[i].target.Some? && AllPlain(entries[i].target.value)
              && var source := Names(entries[i].target.value);
                 forall l <- LinkPaths(entries[..i]) :: !(l <= source)
  {
    assert AcceptedUpTo(base, entries, i) && Accepted(base, entries, i);
    LinksRecordedAndContained(base, entries, i);
    LandsAsNamed(Built(base, entries[..i]), LinkPaths(entries[..i]), EntryPath(entries[i]));
    UnderAnyExactly(SourcePath(entries[i]), LinkPaths(entries[..i]));
    var source := SourcePath(entries[i]);
    forall l <- LinkPaths(entries[..i]) ensures l <= source ==> l == source || l < source {}
    OneEntryFurther(base, entries, i);
  }

  /** Extraction changes the tree only at paths that entries name. */
  lemma {:induction false} OnlyNamedPathsChange(base: Tree, entries: seq<Entry>, p: Path)
    requires forall e <- entries :: EntryPath(e) == [] || EntryPath(e) != p
    ensures p in Built(base, entries) <==> p in base
    ensures p in base ==> Built(base, entries)[p] == base[p]
  {
    if entries != [] {
      assert entries[|entries| - 1] in entries;
      OnlyNamedPathsChange(base, entries[..|entries| - 1], p);
    }
  }

  /** The entry that names a path last decides what stands there: its file, its link or the file it shares. */
  lemma {:induction false} LastEntryDecides(base: Tree, entries: seq<Entry>, i: nat)
    requires i < |entries| && AcceptedUpTo(base, entries, i + 1) && EntryPath(entries[i]) != []
    requires forall j :: i < j < |entries| ==> EntryPath(entries[j]) != EntryPath(entries[i])
    ensures
      var e, p, tree := entries[i], EntryPath(entries[i]), Built(base, entries);
      && p in tree
      && match e.kind
         case Regular => tree[p] == File(e.content)
         case Symlink => e.target.Some? && tree[p] == Link(e.target.value)
         case HardLink =>
           e.target.Some? &&
           var before, source := Built(base, entries[..i]), Names(e.target.value);
           source in before && before[source].File? && tree[p] == before[source]
         case Directory => tree[p] == if p in Built(base, entries[..i]) then Built(base, entries[..i])[p] else Folder
         case Unsupported => false
  {
    var init, last := entries[..|entries| - 1], entries[|entries| - 1];
    if i == |entries| - 1 {
      assert Accepted(base, entries, i);
    } else {
      assert AcceptedUpTo(base, init, i + 1) by {
        forall k | 0 <= k < i + 1 ensures Accepted(base, init, k) {
          assert Accepted(base, entries, k) && init[..k] == entries[..k];
        }
      }
      LastEntryDecides(base, init, i);
      assert init[..i] == entries[..i];
      assert EntryPath(last) != EntryPath(entries[i]);
    }
  }

  // ----- the walk

  /** The checks of one entry, in the order in which they are made. */
  method CheckEntry(e: Entry, path: Path, links: set<Path>) returns (r: Result<set<Path>, ArchiveError>)
    requires e.Entry? && path == EntryPath(e) && path != []
    ensures r.Ok? <==> !UnderAny(path, links) && LinkAllowed(e, links) && !e.kind.Unsupported?
    ensures r.Ok? ==> HasTarget(e) && r.value == if e.kind.Symlink? then links + {path} else links
    ensures r.Err? && r.error == UnderSymlink <==> UnderAny(path, links)
    ensures r.Err? && r.error == UnsupportedType <==> !UnderAny(path, links) && e.kind.Unsupported?
    ensures r.Err? ==> r.error in {UnderSymlink, UnsupportedType, BadLink}
  {
    if UnderAny(path, links) {
      return Err(UnderSymlink);
    }
    match e.kind
    case Regular => r := Ok(links);
    case Directory => r := Ok(links);
    case Unsupported => r := Err(UnsupportedType);
    case Symlink =>
      if e.target.None? || IsAbsoluteTarget(e.target.value) {
        return Err(BadLink);
      }
      var resolved := ResolveInsideRoot(Components(path[..|path| - 1]) + e.target.value);
      r := if resolved.None? then Err(BadLink) else Ok(links + {path});
    case HardLink =>
      if e.target.None? {
        return Err(BadLink);
      }
      var target := NormalizeEntryPath(e.target.value);
      if target.Err? || target.value == [] || target.value in links || UnderAny(target.value, links) {
        return Err(BadLink);
      }
      r := Ok(links);
  }

  /** Checks and extracts one entry below the archive root. */
  method ExtractEntry(e: Entry, path: Path, links: set<Path>, bytes: U64, dest: Destination)
    returns (r: Result<(set<Path>, U64), ArchiveError>)
    requires e.Entry? && path == EntryPath(e) && path != []
    requires LinksKnown(dest.tree, links)
    modifies dest
    ensures r.Ok? <==> Extractable(old(dest.tree), links, bytes, e)
    ensures r.Ok? ==> r.value == (LinksAfter(links, e), BytesAfter(bytes, e))
    ensures dest.tree == if r.Ok? then TreeAfter(old(dest.tree), e) else old(dest.tree)
  {
    var checked := CheckEntry(e, path, links);
    if checked.Err? {
      return Err(checked.error);
    }
    var total: U64 := if bytes + e.size > MAX_U64 then MAX_U64 else bytes + e.size;
    if total > MAX_EXTRACTED_BYTES {
      return Err(TooLarge);
    }
    LandsAsNamed(dest.tree, links, path);
    if e.kind.HardLink? {
      LandsAsNamed(dest.tree, links, SourcePath(e));
    }
    var ok := dest.Extract(path, e);
    r := if ok then Ok((checked.value, total)) else Err(NotExtracted);
  }

  /** One turn of the extraction loop, for the entry with index `i`. */
  method TakeEntry(e: Entry, i: nat, links: set<Path>, bytes: U64, dest: Destination)
    returns (r: Result<(set<Path>, U64), ArchiveError>)
    requires LinksKnown(dest.tree, links)
    modifies dest
    ensures r.Ok? <==> Acceptable(old(dest.tree), links, bytes, i, e)
    ensures r.Ok? ==> r.value == (LinksAfter(links, e), BytesAfter(bytes, e)) && LinksKnown(dest.tree, r.value.0)
    ensures dest.tree == if r.Ok? then TreeAfter(old(dest.tree), e) else old(dest.tree)
  {
    if e.Unreadable? {
      return Err(InvalidArchive);
    }
    if i + 1 > MAX_ENTRIES {
      return Err(TooManyEntries);
    }
    if e.path.None? {
      return Err(BadPath);
    }
    var path := NormalizeEntryPath(e.path.value);
    if path.Err? {
      return Err(BadPath);
    }
    if path.value == [] {
      return Ok((links, bytes));
    }
    ghost var tree := dest.tree;
    r := ExtractEntry(e, path.value, links, bytes, dest);
    if r.Ok? {
      LinksStayKnown(tree, links, bytes, i, e);
    }
  }

  /**
   Extracts a stream. It succeeds exactly when every entry is acceptable, stops at the first that is not,
   and leaves the tree that the extracted entries name.
   */
  method Unpack(entries: seq<Entry>, dest: Destination) returns (r: Result<(), ArchiveError>, count: nat)
    requires LinkFree(dest.tree)
    modifies dest
    ensures count <= |entries| && AcceptedUpTo(old(dest.tree), entries, count)
    ensures r.Ok? <==> count == |entries|
    ensures r.Err? ==> !Accepted(old(dest.tree), entries, count)
    ensures dest.tree == Built(old(dest.tree), entries[..count])
  {
    ghost var base := dest.tree;
    var symlinks: set<Path> := {};
    var totalBytes: U64 := 0;
    count := 0;
    while count < |entries|
      invariant count <= |entries| && AcceptedUpTo(base, entries, count)
      invariant dest.tree == Built(base, entries[..count])
      invariant symlinks == LinkPaths(entries[..count])
      invariant totalBytes == Bytes(entries[..count])
      invariant LinksKnown(dest.tree, symlinks)
    {
      OneEntryFurther(base, entries, count);
      var step := TakeEntry(entries[count], count, symlinks, totalBytes, dest);
      if step.Err? {
        return Err(step.error), count;
      }
      symlinks, totalBytes := step.value.0, step.value.1;
      count := count + 1;
    }
    r := Ok(());
  }
}
