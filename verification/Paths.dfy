/** Lexical path handling of the workspace tools (crates/ngenorca-gateway/src/tools.rs), for Unix paths. */
module Paths {
  import opened Wrappers

  datatype Component = RootDir | CurDir | ParentDir | Normal(name: string)

  /** A path buffer that holds only a root marker and names. */
  datatype PathBuf = PathBuf(absolute: bool, names: seq<string>)

  const EMPTY := PathBuf(false, [])

  // ---------- normalising ----------

  function Push(p: PathBuf, c: Component): PathBuf {
    match c
    case RootDir => PathBuf(true, [])
    case CurDir => p
    case ParentDir => if p.names == [] then p else p.(names := p.names[..|p.names| - 1])
    case Normal(name) => p.(names := p.names + [name])
  }

  /** Continues a buffer with further components. */
  function Continue(p: PathBuf, cs: seq<Component>): PathBuf
    decreases |cs|
  {
    if cs == [] then p else Continue(Push(p, cs[0]), cs[1..])
  }

  function Normalize(cs: seq<Component>): PathBuf {
    Continue(EMPTY, cs)
  }

  function ToComponents(p: PathBuf): seq<Component> {
    (if p.absolute then [RootDir] else []) + NamesToComponents(p.names)
  }

  function NamesToComponents(names: seq<string>): (r: seq<Component>)
    ensures |r| == |names|
    ensures forall i :: 0 <= i < |names| ==> r[i] == Normal(names[i])
  {
    seq(|names|, i requires 0 <= i < |names| => Normal(names[i]))
  }

  method NormalizePath(cs: seq<Component>) returns (p: PathBuf)
    ensures p == Normalize(cs)
    ensures p == Matching(cs, 0)
  {
    MatchingIsNormalize(cs, 0);
    assert cs[0..] == cs;
    p := EMPTY;
    for i := 0 to |cs|
      invariant Continue(p, cs[i..]) == Normalize(cs)
    {
      assert cs[i..][1..] == cs[i + 1..];
      match cs[i] {
        case RootDir => p := PathBuf(true, []);
        case CurDir =>
        case ParentDir =>
          if p.names != [] {
            p := p.(names := p.names[..|p.names| - 1]);
          }
        case Normal(name) => p := p.(names := p.names + [name]);
      }
    }
    assert cs[|cs|..] == [];
  }

  lemma {:induction false} ContinueConcat(p: PathBuf, a: seq<Component>, b: seq<Component>)
    ensures Continue(p, a + b) == Continue(Continue(p, a), b)
    decreases |a|
  {
    if a == [] {
      assert a + b == b;
    } else {
      assert (a + b)[1..] == a[1..] + b;
      ContinueConcat(Push(p, a[0]), a[1..], b);
    }
  }

  function DropNames(p: PathBuf, k: nat): PathBuf
    decreases k
  {
    if k == 0 || p.names == [] then p else DropNames(p.(names := p.names[..|p.names| - 1]), k - 1)
  }

  /** An independent reading from right to left: a name survives when no later `..` is left over to cancel it.
      `pending` counts the parent components still looking for a name. */
  function Matching(cs: seq<Component>, pending: nat): PathBuf {
    if cs == [] then EMPTY
    else
      var front, last := cs[..|cs| - 1], cs[|cs| - 1];
      match last
      case RootDir => PathBuf(true, [])
      case CurDir => Matching(front, pending)
      case ParentDir => Matching(front, pending + 1)
      case Normal(name) =>
        if pending > 0 then Matching(front, pending - 1)
        else var p := Matching(front, 0); p.(names := p.names + [name])
  }

  lemma {:induction false} ContinueLast(p: PathBuf, cs: seq<Component>)
    requires cs != []
    ensures Continue(p, cs) == Push(Continue(p, cs[..|cs| - 1]), cs[|cs| - 1])
  {
    var front, last := cs[..|cs| - 1], cs[|cs| - 1];
    assert cs == front + [last];
    ContinueConcat(p, front, [last]);
    assert [last][1..] == [];
    assert Continue(Continue(p, front), [last]) == Continue(Push(Continue(p, front), last), [last][1..]);
  }

  /** The stack machine and the matching of parents with names agree on every path. */
  lemma {:induction false} MatchingIsNormalize(cs: seq<Component>, pending: nat)
    ensures Matching(cs, pending) == DropNames(Normalize(cs), pending)
    decreases |cs|
  {
    if cs != [] {
      var front, last := cs[..|cs| - 1], cs[|cs| - 1];
      ContinueLast(EMPTY, cs);
      match last
      case RootDir =>
      case CurDir => MatchingIsNormalize(front, pending);
      case ParentDir => MatchingIsNormalize(front, pending + 1); DropEmpty(Normalize(front), pending);
      case Normal(name) =>
        MatchingIsNormalize(front, if pending > 0 then pending - 1 else 0);
        assert (Normalize(front).names + [name])[..|Normalize(front).names|] == Normalize(front).names;
    }
  }

  lemma DropEmpty(p: PathBuf, k: nat)
    ensures p.names == [] ==> DropNames(p, k) == p
  {
  }

  lemma {:induction false} ContinueNames(p: PathBuf, names: seq<string>)
    ensures Continue(p, NamesToComponents(names)) == p.(names := p.names + names)
    decreases |names|
  {
    if names == [] {
      assert p.names + names == p.names;
    } else {
      assert NamesToComponents(names)[1..] == NamesToComponents(names[1..]);
      ContinueNames(p.(names := p.names + [names[0]]), names[1..]);
      assert p.names + [names[0]] + names[1..] == p.names + names;
    }
  }

  /** A normalised path is its own normal form. */
  lemma NormalizeIdempotent(p: PathBuf)
    ensures Normalize(ToComponents(p)) == p
  {
    var cs := NamesToComponents(p.names);
    if p.absolute {
      assert ToComponents(p)[1..] == cs;
      ContinueNames(PathBuf(true, []), p.names);
      assert [] + p.names == p.names;
    } else {
      assert ToComponents(p) == cs;
      ContinueNames(EMPTY, p.names);
      assert [] + p.names == p.names;
    }
  }

  predicate IsAbsolute(cs: seq<Component>) {
    cs != [] && cs[0].RootDir?
  }

  /** `Path::join`: an absolute right-hand side replaces the left one. */
  function Join(a: seq<Component>, b: seq<Component>): seq<Component> {
    if IsAbsolute(b) then b else a + b
  }

  /** Normalising a joined path continues the component stack from the normalised root. */
  lemma NormalizeJoin(root: seq<Component>, p: seq<Component>)
    ensures Normalize(Join(root, p)) == Continue(Normalize(root), p)
    ensures Normalize(Join(ToComponents(Normalize(root)), p)) == Normalize(Join(root, p))
  {
    NormalizeIdempotent(Normalize(root));
    if IsAbsolute(p) {
      assert Push(EMPTY, p[0]) == Push(Normalize(root), p[0]);
    } else {
      ContinueConcat(EMPTY, root, p);
      ContinueConcat(EMPTY, ToComponents(Normalize(root)), p);
    }
  }

  // ---------- parsing and printing ----------

  /** The pieces of `s` between slashes. */
  function SplitAll(s: string): (r: seq<string>)
    ensures r != []
  {
    if s == "" then [""]
    else
      var rest := SplitAll(s[1..]);
      if s[0] == '/' then [""] + rest else [[s[0]] + rest[0]] + rest[1..]
  }

  function PieceComponents(pieces: seq<string>): seq<Component> {
    if pieces == [] then []
    else
      var p := pieces[0];
      (if p == "" || p == "." then [] else if p == ".." then [ParentDir] else [Normal(p)])
      + PieceComponents(pieces[1..])
  }

  /** `Path::components`: repeated slashes and inner dots vanish, a leading dot of a relative path stays. */
  function Components(s: string): seq<Component> {
    var pieces := SplitAll(s);
    (if s != "" && s[0] == '/' then [RootDir] else if pieces[0] == "." then [CurDir] else []) + PieceComponents(pieces)
  }

  function JoinNames(names: seq<string>): string {
    if names == [] then "" else if |names| == 1 then names[0] else names[0] + "/" + JoinNames(names[1..])
  }

  function Display(p: PathBuf): string {
    (if p.absolute then "/" else "") + JoinNames(p.names)
  }

  /** A name as it comes out of parsing. */
  predicate IsName(name: string) {
    name != "" && name != "." && name != ".." && '/' !in name
  }

  predicate WellFormed(p: PathBuf) {
    forall i :: 0 <= i < |p.names| ==> IsName(p.names[i])
  }

  lemma {:induction false} SplitName(name: string, rest: string)
    requires '/' !in name
    ensures SplitAll(name) == [name]
    ensures SplitAll(name + "/" + rest) == [name] + SplitAll(rest)
  {
    if name == "" {
      assert (name + "/" + rest)[1..] == rest;
    } else {
      SplitName(name[1..], rest);
      assert [name[0]] + name[1..] == name && name[0] in name;
      assert (name + "/" + rest)[1..] == name[1..] + "/" + rest;
    }
  }

  lemma {:induction false} SplitJoined(names: seq<string>)
    requires names != [] && forall i :: 0 <= i < |names| ==> IsName(names[i])
    ensures SplitAll(JoinNames(names)) == names
  {
    if |names| == 1 {
      SplitName(names[0], "");
    } else {
      SplitJoined(names[1..]);
      SplitName(names[0], JoinNames(names[1..]));
      assert [names[0]] + names[1..] == names;
    }
  }

  lemma {:induction false} PiecesOfNames(names: seq<string>)
    requires forall i :: 0 <= i < |names| ==> IsName(names[i])
    ensures PieceComponents(names) == NamesToComponents(names)
  {
    if names != [] {
      PiecesOfNames(names[1..]);
      assert NamesToComponents(names) == [Normal(names[0])] + NamesToComponents(names[1..]);
    }
  }

  lemma ComponentsOfRooted(s: string)
    ensures Components("/" + s) == [RootDir] + PieceComponents(SplitAll(s))
  {
    hide PieceComponents;
    var pieces := SplitAll(s);
    assert ("/" + s)[1..] == s;
    assert SplitAll("/" + s) == [""] + pieces;
    EmptyPiece(pieces);
  }

  lemma EmptyPiece(pieces: seq<string>)
    ensures PieceComponents([""] + pieces) == PieceComponents(pieces)
  {
    assert ([""] + pieces)[1..] == pieces;
  }

  /** The pieces of joined names parse to those names, also when there is none. */
  lemma PiecesOfJoined(names: seq<string>)
    requires forall i :: 0 <= i < |names| ==> IsName(names[i])
    ensures PieceComponents(SplitAll(JoinNames(names))) == NamesToComponents(names)
  {
    hide NamesToComponents;
    if names == [] {
      EmptyPiece([]);
      assert [""] + [] == [""];
      PiecesOfNames([]);
    } else {
      SplitJoined(names);
      PiecesOfNames(names);
    }
  }

  /** Printing a well-formed path and parsing it again gives its components back. */
  lemma ParsePrinted(p: PathBuf)
    requires WellFormed(p)
    ensures Components(Display(p)) == ToComponents(p)
  {
    hide PieceComponents, SplitAll, JoinNames, NamesToComponents, IsName;
    var text := JoinNames(p.names);
    PiecesOfJoined(p.names);
    if p.absolute {
      ComponentsOfRooted(text);
    } else {
      assert Display(p) == text;
      RelativeStart(p.names);
      assert Components(text) == PieceComponents(SplitAll(text));
      assert ToComponents(p) == NamesToComponents(p.names);
    }
  }

  lemma RelativeStart(names: seq<string>)
    requires forall i :: 0 <= i < |names| ==> IsName(names[i])
    ensures JoinNames(names) != "" ==> JoinNames(names)[0] != '/'
    ensures SplitAll(JoinNames(names))[0] != "."
  {
    if names != [] {
      SplitJoined(names);
      JoinedStart(names);
    }
  }

  lemma JoinedStart(names: seq<string>)
    requires names != [] && IsName(names[0])
    ensures JoinNames(names) != "" && JoinNames(names)[0] == names[0][0] != '/'
  {
    assert names[0][0] in names[0];
  }

  // ---------- resolving inside the workspace ----------

  /** `Path::starts_with`, component by component; the empty path starts every path. */
  predicate StartsWith(p: PathBuf, base: PathBuf) {
    base == EMPTY || (base.absolute == p.absolute && base.names <= p.names)
  }

  function StripPrefix(p: PathBuf, base: PathBuf): PathBuf
    requires StartsWith(p, base)
  {
    if base == EMPTY then p else PathBuf(false, p.names[|base.names|..])
  }

  function Slashed(s: string): (r: string)
    ensures |r| == |s|
    ensures forall i :: 0 <= i < |s| ==> r[i] == if s[i] == '\\' then '/' else s[i]
  {
    seq(|s|, i requires 0 <= i < |s| => if s[i] == '\\' then '/' else s[i])
  }

  /** `maybe_relativize` */
  function Relativize(p: PathBuf, root: PathBuf): string {
    Slashed(Display(if StartsWith(p, root) then StripPrefix(p, root) else p))
  }

  /** `resolve_workspace_path`; None is the unauthorized error. */
  function Resolve(workspaceRoot: seq<Component>, requested: string): Option<PathBuf> {
    var root := Normalize(workspaceRoot);
    var req := Components(requested);
    var candidate := if IsAbsolute(req) then Normalize(req) else Normalize(Join(ToComponents(root), req));
    if StartsWith(candidate, root) then Some(candidate) else None
  }

  lemma {:induction false} ComponentsAreNames(pieces: seq<string>)
    requires forall i :: 0 <= i < |pieces| ==> '/' !in pieces[i]
    ensures forall i :: 0 <= i < |PieceComponents(pieces)| ==>
              PieceComponents(pieces)[i].Normal? ==>
                IsName(PieceComponents(pieces)[i].name) && PieceComponents(pieces)[i].name in pieces
  {
    if pieces != [] {
      ComponentsAreNames(pieces[1..]);
    }
  }

  lemma {:induction false} PiecesHaveNo(s: string, c: char)
    requires c == '/' || c !in s
    ensures forall i :: 0 <= i < |SplitAll(s)| ==> c !in SplitAll(s)[i]
  {
    if s != "" {
      PiecesHaveNo(s[1..], c);
    }
  }

  lemma PushOrigin(p: PathBuf, c: Component, i: nat)
    requires i < |Push(p, c).names|
    ensures (i < |p.names| && Push(p, c).names[i] == p.names[i]) || Normal(Push(p, c).names[i]) == c
  {
  }

  /** Each name of a continued path is an old name at its old place or a name of the components. */
  lemma {:induction false} ContinueOrigin(p: PathBuf, cs: seq<Component>, i: nat)
    requires i < |Continue(p, cs).names|
    ensures (i < |p.names| && Continue(p, cs).names[i] == p.names[i]) || Normal(Continue(p, cs).names[i]) in cs
    decreases |cs|
  {
    hide Push;
    if cs != [] {
      ContinueOrigin(Push(p, cs[0]), cs[1..], i);
      assert cs == [cs[0]] + cs[1..];
      if i < |Push(p, cs[0]).names| {
        PushOrigin(p, cs[0], i);
      }
    }
  }

  ghost predicate NamesOnly(cs: seq<Component>) {
    forall name :: Normal(name) in cs ==> IsName(name)
  }

  lemma ComponentsNamesOnly(s: string)
    ensures NamesOnly(Components(s))
  {
    PiecesHaveNo(s, '/');
    ComponentsAreNames(SplitAll(s));
  }

  /** Every resolved path lies under the normalised root, and its own part consists of plain names. */
  lemma ResolvedPathIsInside(workspaceRoot: seq<Component>, requested: string)
    requires NamesOnly(workspaceRoot) && Resolve(workspaceRoot, requested).Some?
    ensures var p := Resolve(workspaceRoot, requested).value;
            StartsWith(p, Normalize(workspaceRoot)) && WellFormed(p)
  {
    var p := Resolve(workspaceRoot, requested).value;
    var root := Normalize(workspaceRoot);
    var req := Components(requested);
    ComponentsNamesOnly(requested);
    NormalizeJoin(workspaceRoot, req);
    forall i | 0 <= i < |p.names|
      ensures IsName(p.names[i])
    {
      if IsAbsolute(req) {
        ContinueOrigin(EMPTY, req, i);
      } else {
        ContinueOrigin(root, req, i);
        if i < |root.names| {
          ContinueOrigin(EMPTY, workspaceRoot, i);
        }
      }
    }
  }

  predicate HasBackslash(names: seq<string>) {
    exists i :: 0 <= i < |names| && '\\' in names[i]
  }

  lemma {:induction false} JoinedBackslash(names: seq<string>)
    ensures '\\' in JoinNames(names) <==> HasBackslash(names)
  {
    if |names| == 1 {
      assert JoinNames(names) == names[0];
    } else if names != [] {
      JoinedBackslash(names[1..]);
      assert JoinNames(names) == names[0] + "/" + JoinNames(names[1..]);
      assert forall i :: 0 <= i < |names| - 1 ==> names[1..][i] == names[i + 1];
      if HasBackslash(names) && '\\' !in names[0] {
        var i :| 0 <= i < |names| && '\\' in names[i];
        assert '\\' in names[1..][i - 1];
      }
    }
  }

  lemma SlashedFixed(s: string)
    requires '\\' !in s
    ensures Slashed(s) == s
  {
  }

  /** Resolving the relativised form of a resolved path gives that path back
      exactly when no name below the root contains a backslash. */
  lemma RelativizeRoundTrip(workspaceRoot: seq<Component>, requested: string)
    requires NamesOnly(workspaceRoot) && Resolve(workspaceRoot, requested).Some?
    ensures var p := Resolve(workspaceRoot, requested).value;
            var root := Normalize(workspaceRoot);
            Resolve(workspaceRoot, Relativize(p, root)) == Some(p) <==> !HasBackslash(StripPrefix(p, root).names)
  {
    var p := Resolve(workspaceRoot, requested).value;
    var root := Normalize(workspaceRoot);
    ResolvedPathIsInside(workspaceRoot, requested);
    var rest := StripPrefix(p, root);
    JoinedBackslash(rest.names);
    if HasBackslash(rest.names) {
      BackslashIsLost(workspaceRoot, p);
    } else {
      SlashedFixed(Display(rest));
      ResolvePrinted(workspaceRoot, p);
    }
  }

  lemma ResolvePrinted(workspaceRoot: seq<Component>, p: PathBuf)
    requires WellFormed(p) && StartsWith(p, Normalize(workspaceRoot))
    ensures Resolve(workspaceRoot, Display(StripPrefix(p, Normalize(workspaceRoot)))) == Some(p)
  {
    hide Continue, Display, WellFormed, Components, Join, ToComponents;
    var root := Normalize(workspaceRoot);
    var rest := StripPrefix(p, root);
    assert WellFormed(rest) by { StrippedWellFormed(p, root); }
    ParsePrinted(rest);
    CandidateOfPrinted(p, root);
  }

  lemma StrippedWellFormed(p: PathBuf, root: PathBuf)
    requires WellFormed(p) && StartsWith(p, root)
    ensures WellFormed(StripPrefix(p, root))
  {
  }

  lemma JoinedNames(root: PathBuf, names: seq<string>)
    ensures Normalize(Join(ToComponents(root), NamesToComponents(names))) == root.(names := root.names + names)
  {
    hide Continue, ToComponents;
    NormalizeIdempotent(root);
    ContinueConcat(EMPTY, ToComponents(root), NamesToComponents(names));
    ContinueNames(root, names);
  }

  lemma CandidateOfPrinted(p: PathBuf, root: PathBuf)
    requires StartsWith(p, root)
    ensures var cs := ToComponents(StripPrefix(p, root));
            (if IsAbsolute(cs) then Normalize(cs) else Normalize(Join(ToComponents(root), cs))) == p
  {
    hide Normalize, Join;
    var rest := StripPrefix(p, root);
    NormalizeIdempotent(rest);
    JoinedNames(root, rest.names);
    if !rest.absolute {
      assert ToComponents(rest) == NamesToComponents(rest.names);
      assert root.names + rest.names == p.names;
    }
  }

  /** A backslash in a name is printed as a slash, so parsing cannot bring it back. */
  lemma BackslashIsLost(workspaceRoot: seq<Component>, p: PathBuf)
    requires StartsWith(p, Normalize(workspaceRoot))
    requires HasBackslash(StripPrefix(p, Normalize(workspaceRoot)).names)
    ensures Resolve(workspaceRoot, Relativize(p, Normalize(workspaceRoot))) != Some(p)
  {
    var root := Normalize(workspaceRoot);
    var rest := StripPrefix(p, root);
    var text := Relativize(p, root);
    var cs := Components(text);
    NoBackslashNames(text);
    NormalizeJoin(workspaceRoot, cs);
    var i :| 0 <= i < |rest.names| && '\\' in rest.names[i];
    var at := if root == EMPTY then i else |root.names| + i;
    assert p.names[at] == rest.names[i];
    if Resolve(workspaceRoot, text) == Some(p) {
      if IsAbsolute(cs) {
        ContinueOrigin(EMPTY, cs, at);
      } else {
        ContinueOrigin(root, cs, at);
      }
      assert false;
    }
  }

  lemma NoBackslashNames(s: string)
    requires '\\' !in s
    ensures forall name :: Normal(name) in Components(s) ==> '\\' !in name
  {
    PiecesHaveNo(s, '\\');
    PiecesHaveNo(s, '/');
    ComponentsAreNames(SplitAll(s));
  }
}
