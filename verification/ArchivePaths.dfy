/** Paths of archive entries: judged by their components, and walked by the operating system. */
module ArchivePaths {
  import opened Wrappers
  import opened Sequences

  datatype Name = Name(text: string)

  /** A relative path of plain names; `[]` is the destination itself. */
  type Path = seq<Name>

  datatype Component = Normal(name: Name) | CurDir | ParentDir | RootDir | Prefix

  datatype PathError = HasParent | IsAbsolute

  predicate IsPlain(c: Component) {
    c.Normal? || c.CurDir?
  }

  ghost predicate AllPlain(components: seq<Component>) {
    forall k :: 0 <= k < |components| ==> IsPlain(components[k])
  }

  /** The names of a path, in order. */
  function Names(components: seq<Component>): Path {
    if components == [] then []
    else (if components[0].Normal? then [components[0].name] else []) + Names(components[1..])
  }

  function Components(path: Path): seq<Component> {
    if path == [] then [] else [Normal(path[0])] + Components(path[1..])
  }

  /** Accepts exactly the paths of names and `.`, and keeps their names. */
  method NormalizeEntryPath(components: seq<Component>) returns (r: Result<Path, PathError>)
    ensures r.Ok? <==> AllPlain(components)
    ensures r.Ok? ==> r.value == Names(components)
    ensures r.Err? ==> exists k ::
                && 0 <= k < |components| && AllPlain(components[..k]) && !IsPlain(components[k])
                && (r.error.HasParent? <==> components[k].ParentDir?)
  {
    var normalized: Path := [];
    for i := 0 to |components|
      invariant AllPlain(components[..i])
      invariant normalized + Names(components[i..]) == Names(components)
    {
      match components[i]
      case Normal(part) => normalized := normalized + [part];
      case CurDir =>
      case ParentDir => return Err(HasParent);
      case _ => return Err(IsAbsolute);
    }
    assert components[..|components|] == components;
    r := Ok(normalized);
  }

  // ----- lexical resolution

  /** One component further from `at`; `None` when that leaves the root. */
  function Step(at: Path, c: Component): Option<Path> {
    match c
    case Normal(name) => Some(at + [name])
    case CurDir => Some(at)
    case ParentDir => if at == [] then None else Some(at[..|at| - 1])
    case _ => None
  }

  function LexicalFrom(at: Path, todo: seq<Component>): Option<Path>
    decreases |todo|
  {
    if todo == [] then Some(at)
    else match Step(at, todo[0])
      case None => None
      case Some(next) => LexicalFrom(next, todo[1..])
  }

  /** Where a path leads when nothing on the way is a link. */
  function Lexical(components: seq<Component>): Option<Path> {
    LexicalFrom([], components)
  }

  method ResolveInsideRoot(components: seq<Component>) returns (r: Option<Path>)
    ensures r == Lexical(components)
  {
    var resolved: Path := [];
    for i := 0 to |components|
      invariant LexicalFrom(resolved, components[i..]) == Lexical(components)
    {
      match components[i]
      case Normal(part) => resolved := resolved + [part];
      case CurDir =>
      case ParentDir =>
        if resolved == [] {
          return None;
        }
        resolved := resolved[..|resolved| - 1];
      case _ => return None;
    }
    r := Some(resolved);
  }

  lemma {:induction false} LexicalFromAppend(at: Path, a: seq<Component>, b: seq<Component>)
    ensures LexicalFrom(at, a + b) ==
            match LexicalFrom(at, a)
            case None => None
            case Some(via) => LexicalFrom(via, b)
    decreases |a|
  {
    if a == [] {
      assert a + b == b;
    } else {
      assert (a + b)[0] == a[0] && (a + b)[1..] == a[1..] + b;
      if Step(at, a[0]).Some? {
        LexicalFromAppend(Step(at, a[0]).value, a[1..], b);
      }
    }
  }

  /** A name followed by `..` cancels anywhere in a path, and `.` vanishes. */
  lemma DetoursCancel(a: seq<Component>, name: Name, b: seq<Component>)
    ensures Lexical(a + [Normal(name), ParentDir] + b) == Lexical(a + b)
    ensures Lexical(a + [CurDir] + b) == Lexical(a + b)
  {
    LexicalFromAppend([], a, b);
    forall detour | detour in {[Normal(name), ParentDir], [CurDir]}
      ensures Lexical(a + detour + b) == Lexical(a + b)
    {
      LexicalFromAppend([], a + detour, b);
      LexicalFromAppend([], a, detour);
      if Lexical(a).Some? {
        var at := Lexical(a).value;
        assert (at + [name])[..|at|] == at;
        assert detour[1..] == [] || (detour[1..] == [ParentDir] && [ParentDir][1..] == []);
        assert LexicalFrom(at, detour) == Some(at);
      }
    }
  }

  lemma {:induction false} NamesFrom(at: Path, components: seq<Component>)
    requires AllPlain(components)
    ensures LexicalFrom(at, components) == Some(at + Names(components))
    decreases |components|
  {
    if components == [] {
      assert at + [] == at;
    } else {
      var rest := components[1..];
      NamesFrom(Step(at, components[0]).value, rest);
      if components[0].Normal? {
        Associative(at, [components[0].name], Names(rest));
      } else {
        assert [] + Names(rest) == Names(rest);
      }
    }
  }

  /** An accepted path resolves to its names, and the path of some names to just those. */
  lemma PlainResolvesToNames(components: seq<Component>)
    requires AllPlain(components)
    ensures Lexical(components) == Some(Names(components))
    ensures Lexical(Components(Names(components))) == Lexical(components)
  {
    var names := Names(components);
    NamesFrom([], components);
    NamesOfComponents(names);
    NamesFrom([], Components(names));
    assert [] + names == names;
  }

  lemma {:induction false} NamesOfComponents(path: Path)
    ensures AllPlain(Components(path)) && Names(Components(path)) == path
  {
    if path != [] {
      NamesOfComponents(path[1..]);
      assert Components(path)[1..] == Components(path[1..]);
    }
  }

  function Delta(c: Component): int {
    if c.Normal? then 1 else if c.ParentDir? then -1 else 0
  }

  /** How far below its start a path leads: names count up, `..` counts down. */
  function Depth(components: seq<Component>): int {
    if components == [] then 0 else Delta(components[0]) + Depth(components[1..])
  }

  ghost predicate IsRelative(components: seq<Component>) {
    forall c <- components :: !c.RootDir? && !c.Prefix?
  }

  /** No beginning of the path leads above `height` levels over its start. */
  ghost predicate StaysBelow(height: nat, components: seq<Component>) {
    forall k :: 0 <= k <= |components| ==> height + Depth(components[..k]) >= 0
  }

  lemma StaysBelowNext(height: nat, components: seq<Component>)
    requires components != [] && IsRelative(components)
    ensures
      var next := height + Depth(components[..1]);
      StaysBelow(height, components) <==> next >= 0 && StaysBelow(next, components[1..])
  {
    var next, rest := height + Depth(components[..1]), components[1..];
    assert components[..1] == [components[0]] && Depth([components[0]]) == Delta(components[0]);
    forall k | 1 <= k <= |components|
      ensures height + Depth(components[..k]) == next + Depth(rest[..k - 1])
    {
      var taken := components[..k];
      assert taken[0] == components[0] && taken[1..] == rest[..k - 1];
      assert Depth(taken) == Delta(taken[0]) + Depth(taken[1..]);
    }
    if next >= 0 && StaysBelow(next, rest) {
      forall k | 0 <= k <= |components| ensures height + Depth(components[..k]) >= 0 {
        if k > 0 {
          assert next + Depth(rest[..k - 1]) >= 0;
        }
      }
    }
    if StaysBelow(height, components) {
      assert height + Depth(components[..1]) >= 0;
      forall k | 0 <= k <= |rest| ensures next + Depth(rest[..k]) >= 0 {
        assert height + Depth(components[..k + 1]) >= 0;
      }
    }
  }

  lemma {:induction false} LexicalFromExactly(at: Path, todo: seq<Component>)
    ensures LexicalFrom(at, todo).Some? <==> IsRelative(todo) && StaysBelow(|at|, todo)
    ensures LexicalFrom(at, todo).Some? ==> |LexicalFrom(at, todo).value| == |at| + Depth(todo)
    decreases |todo|
  {
    if todo != [] {
      assert IsRelative(todo) <==> !todo[0].RootDir? && !todo[0].Prefix? && IsRelative(todo[1..]) by {
        assert todo == [todo[0]] + todo[1..];
      }
      if IsRelative(todo) {
        StaysBelowNext(|at|, todo);
        assert todo[..1] == [todo[0]];
      }
      if Step(at, todo[0]).Some? {
        LexicalFromExactly(Step(at, todo[0]).value, todo[1..]);
      }
    }
  }

  /** A target resolves exactly when it is relative and none of its prefixes leads above the root. */
  lemma LexicalExactly(components: seq<Component>)
    ensures Lexical(components).Some? <==> IsRelative(components) && StaysBelow(0, components)
    ensures Lexical(components).Some? ==> |Lexical(components).value| == Depth(components)
  {
    LexicalFromExactly([], components);
  }

  // ----- physical resolution

  /** Most links the operating system follows in one path. */
  const MAX_FOLLOWED: nat := 40

  /**
   Where the operating system ends up when it creates something at a path: links on the way are
   followed, the last component is not. `None` when the walk leaves the root or follows too many links.
   */
  function Walk(links: map<Path, seq<Component>>, at: Path, todo: seq<Component>, followed: nat): Option<Path>
    decreases followed, |todo|
  {
    if todo == [] then Some(at)
    else match Step(at, todo[0])
      case None => None
      case Some(next) =>
        if |todo| > 1 && todo[0].Normal? && next in links then
          if followed == 0 then None else Walk(links, at, links[next] + todo[1..], followed - 1)
        else Walk(links, next, todo[1..], followed)
  }

  function Landing(links: map<Path, seq<Component>>, path: Path): Option<Path> {
    Walk(links, [], Components(path), MAX_FOLLOWED)
  }

  /** A directory above the path, from the destination down, is in `paths`. */
  predicate UnderAny(path: Path, paths: set<Path>) {
    exists k :: 0 <= k < |path| && path[..k] in paths
  }

  /** ... that is, a proper beginning of the path is. */
  lemma UnderAnyExactly(path: Path, paths: set<Path>)
    ensures UnderAny(path, paths) <==> exists p <- paths :: p < path
  {
    if p :| p in paths && p < path {
      assert path[..|p|] == p;
    }
  }

  lemma WalkOneName(links: map<Path, seq<Component>>, at: Path, rest: Path, followed: nat)
    requires rest != []
    requires |rest| > 1 ==> at + [rest[0]] !in links
    ensures Walk(links, at, Components(rest), followed) == Walk(links, at + [rest[0]], Components(rest[1..]), followed)
  {
    ComponentsLength(rest);
    assert Components(rest)[0] == Normal(rest[0]) && Components(rest)[1..] == Components(rest[1..]);
  }

  lemma {:induction false} WalkOfNames(links: map<Path, seq<Component>>, path: Path, i: nat, followed: nat)
    requires i <= |path| && !UnderAny(path, links.Keys)
    ensures Walk(links, path[..i], Components(path[i..]), followed) == Some(path)
    decreases |path| - i
  {
    if i == |path| {
      assert path[..i] == path && path[i..] == [];
    } else {
      var at, rest := path[..i], path[i..];
      assert at + [rest[0]] == path[..i + 1] && rest[1..] == path[i + 1..];
      WalkOneName(links, at, rest, followed);
      WalkOfNames(links, path, i + 1, followed);
    }
  }

  lemma FirstComponent(path: Path, todo: seq<Component>)
    requires path != []
    ensures (Components(path) + todo)[0] == Normal(path[0])
    ensures (Components(path) + todo)[1..] == Components(path[1..]) + todo
  {
    HeadAndTail(Components(path), todo);
  }

  lemma {:induction false} WalkIntoDirectory(links: map<Path, seq<Component>>, at: Path, path: Path,
                                             todo: seq<Component>, followed: nat)
    requires todo != [] && forall k :: 0 < k <= |path| ==> at + path[..k] !in links
    ensures Walk(links, at, Components(path) + todo, followed) == Walk(links, at + path, todo, followed)
    decreases |path|
  {
    if path == [] {
      assert Components(path) + todo == todo && at + path == at;
    } else {
      var rest, next := path[1..], at + [path[0]];
      FirstComponent(path, todo);
      assert path[..1] == [path[0]] && path == [path[0]] + rest;
      forall k | 0 < k <= |rest| ensures next + rest[..k] !in links {
        assert path[..k + 1] == [path[0]] + rest[..k];
        Associative(at, [path[0]], rest[..k]);
      }
      WalkIntoDirectory(links, next, rest, todo, followed);
      Associative(at, [path[0]], rest);
    }
  }

  /** A path through a link goes on from the link's directory by the link's target. */
  lemma LinkIsFollowed(links: map<Path, seq<Component>>, link: Path, rest: seq<Component>, followed: nat)
    requires link != [] && link in links && !UnderAny(link, links.Keys) && rest != [] && followed > 0
    ensures Walk(links, [], Components(link) + rest, followed)
            == Walk(links, link[..|link| - 1], links[link] + rest, followed - 1)
  {
    var directory, name := link[..|link| - 1], link[|link| - 1];
    forall k | 0 < k <= |directory| ensures [] + directory[..k] !in links {
      assert [] + directory[..k] == link[..k];
    }
    ComponentsSplit(directory, name);
    assert directory + [name] == link && [] + directory == directory;
    assert Components(link) + rest == Components(directory) + ([Normal(name)] + rest);
    WalkIntoDirectory(links, [], directory, [Normal(name)] + rest, followed);
    assert ([Normal(name)] + rest)[1..] == rest;
  }

  lemma {:induction false} ComponentsSplit(path: Path, name: Name)
    ensures Components(path + [name]) == Components(path) + [Normal(name)]
  {
    if path == [] {
      assert path + [name] == [name] && [name][1..] == [];
      assert Components([name]) == [Normal(name)] + Components([]);
    } else {
      ComponentsSplit(path[1..], name);
      assert (path + [name])[0] == path[0] && (path + [name])[1..] == path[1..] + [name];
    }
  }

  lemma ComponentsLength(path: Path)
    ensures |Components(path)| == |path|
  {
  }

  /** A path with no link above it is created exactly where it says. */
  lemma LandsOnItself(links: map<Path, seq<Component>>, path: Path)
    requires !UnderAny(path, links.Keys)
    ensures Landing(links, path) == Some(path)
  {
    WalkOfNames(links, path, 0, MAX_FOLLOWED);
    assert path[..0] == [] && path[0..] == path;
  }

  /** Without links the two resolutions agree on every path. */
  lemma {:induction false} WalkWithoutLinks(at: Path, todo: seq<Component>, followed: nat)
    ensures Walk(map[], at, todo, followed) == LexicalFrom(at, todo)
    decreases |todo|
  {
    if todo != [] && Step(at, todo[0]).Some? {
      WalkWithoutLinks(Step(at, todo[0]).value, todo[1..], followed);
    }
  }
}
