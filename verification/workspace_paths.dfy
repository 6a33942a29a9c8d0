/** The components of a Unix path, as `Path::components` reads them, and `PathBuf::push`. */
module Paths {
  import opened Wrappers
  import opened Text

  datatype Component = RootDir | CurDir | ParentDir | Normal(name: string)

  /** The pieces between the separators. */
  function Pieces(path: string, separator: char): (r: seq<string>)
    ensures r != []
    decreases |path|
  {
    var first := Split(path, separator);
    if first.None? then [path] else [first.value.0] + Pieces(first.value.1, separator)
  }

  function PieceOf(piece: string): seq<Component> {
    if piece == "" || piece == "." then []
    else if piece == ".." then [ParentDir]
    else [Normal(piece)]
  }

  function Body(pieces: seq<string>): seq<Component> {
    if pieces == [] then [] else PieceOf(pieces[0]) + Body(pieces[1..])
  }

  predicate IsAbsolute(path: string) { path != "" && path[0] == '/' }

  /** A dot is kept only at the very start of a relative path. */
  predicate LeadingDot(path: string) { path == "." || StartsWith(path, "./") }

  function Components(path: string): seq<Component> {
    (if IsAbsolute(path) then [RootDir] else if LeadingDot(path) then [CurDir] else []) + Body(Pieces(path, '/'))
  }

  /** `push` of a relative path. */
  function Push(path: string, part: string): string {
    if path == "" || path[|path| - 1] == '/' then path + part else path + "/" + part
  }

  function PushAll(path: string, parts: seq<string>): string {
    if parts == [] then path
    else
      var n := |parts| - 1;
      Push(PushAll(path, parts[..n]), parts[n])
  }

  /** What a `Normal` component can be called. */
  predicate IsName(part: string) { part != "" && part != "." && part != ".." && '/' !in part }

  function Normals(parts: seq<string>): (r: seq<Component>)
    ensures |r| == |parts| && forall i :: 0 <= i < |r| ==> r[i] == Normal(parts[i])
  {
    seq(|parts|, i requires 0 <= i < |parts| => Normal(parts[i]))
  }

  // ---------------------------------------------------------------------
  // Pushing a name adds one component
  // ---------------------------------------------------------------------

  lemma {:induction false} BodyJoins(a: seq<string>, b: seq<string>)
    ensures Body(a + b) == Body(a) + Body(b)
  {
    if a == [] {
      assert a + b == b;
    } else {
      assert (a + b)[1..] == a[1..] + b;
      BodyJoins(a[1..], b);
    }
  }

  lemma {:induction false} SplitOfAbsent(s: string, mark: char)
    requires mark !in s
    ensures Split(s, mark).None?
  {
    if s != [] { SplitOfAbsent(s[1..], mark); }
  }

  lemma {:induction false} SplitParts(s: string, mark: char)
    ensures match Split(s, mark)
      case None => mark !in s
      case Some(r) => s == r.0 + [mark] + r.1 && mark !in r.0
  {
    if s != [] && s[0] != mark {
      SplitParts(s[1..], mark);
      assert s == [s[0]] + s[1..];
    }
  }

  /** One more separator and a piece without one. */
  lemma {:induction false} PiecesGrow(path: string, separator: char, part: string)
    requires separator !in part
    ensures Pieces(path + [separator] + part, separator) == Pieces(path, separator) + [part]
    decreases |path|
  {
    var s := path + [separator] + part;
    SplitParts(path, separator);
    var first := Split(path, separator);
    if first.None? {
      SplitFindsTheMark(path, separator, part);
      SplitOfAbsent(part, separator);
      assert Pieces(part, separator) == [part];
    } else {
      assert s == first.value.0 + [separator] + (first.value.1 + [separator] + part);
      SplitFindsTheMark(first.value.0, separator, first.value.1 + [separator] + part);
      PiecesGrow(first.value.1, separator, part);
      assert [first.value.0] + (Pieces(first.value.1, separator) + [part]) == Pieces(path, separator) + [part];
    }
  }

  lemma BodyGrows(path: string, part: string)
    requires IsName(part)
    ensures Body(Pieces(path + "/" + part, '/')) == Body(Pieces(path, '/')) + [Normal(part)]
  {
    PiecesGrow(path, '/', part);
    BodyJoins(Pieces(path, '/'), [part]);
    assert Body([part]) == [Normal(part)] + Body([]);
  }

  /** A trailing separator changes no component. */
  lemma TrailingSeparator(path: string)
    ensures Body(Pieces(path + "/", '/')) == Body(Pieces(path, '/'))
  {
    PiecesGrow(path, '/', "");
    assert path + ['/'] + "" == path + "/";
    BodyJoins(Pieces(path, '/'), [""]);
    assert Body([""]) == PieceOf("") + Body([]);
  }

  lemma NameAlone(part: string)
    requires IsName(part)
    ensures Components(part) == [Normal(part)]
  {
    SplitOfAbsent(part, '/');
    assert Pieces(part, '/') == [part];
    assert Body([part]) == [Normal(part)] + Body([]);
    assert |part| >= 2 ==> part[1] in part;
  }

  lemma LongerKeepsStart(path: string, part: string)
    requires path != "" && IsName(part)
    ensures IsAbsolute(path + "/" + part) == IsAbsolute(path)
    ensures LeadingDot(path + "/" + part) == LeadingDot(path)
  {
  }

  lemma EmptyHasNoComponents()
    ensures Components("") == [] && Body(Pieces("", '/')) == []
  {
  }

  lemma LongerKeepsStartAfterSeparator(shorter: string, part: string)
    ensures var path, s := shorter + "/", shorter + "/" + part;
      IsAbsolute(s) == IsAbsolute(path) && (!IsAbsolute(path) ==> LeadingDot(s) == LeadingDot(path))
  {
  }

  lemma PushAfterSeparator(shorter: string, part: string)
    requires IsName(part)
    ensures Components(shorter + "/" + part) == Components(shorter + "/") + [Normal(part)]
  {
    BodyGrows(shorter, part);
    TrailingSeparator(shorter);
    LongerKeepsStartAfterSeparator(shorter, part);
  }

  lemma PushAddsOne(path: string, part: string)
    requires IsName(part)
    ensures Components(Push(path, part)) == Components(path) + [Normal(part)]
  {
    if path == "" {
      NameAlone(part);
      assert "" + part == part;
      EmptyHasNoComponents();
    } else if path[|path| - 1] == '/' {
      var shorter := path[..|path| - 1];
      assert path == shorter + "/" && path + part == shorter + "/" + part;
      PushAfterSeparator(shorter, part);
    } else {
      BodyGrows(path, part);
      LongerKeepsStart(path, part);
    }
  }

  lemma NormalsGrow(parts: seq<string>, part: string)
    ensures Normals(parts + [part]) == Normals(parts) + [Normal(part)]
  {
  }

  /** Names pushed one by one are read back as the components that follow. */
  lemma {:induction false} PushedNamesAreRead(path: string, parts: seq<string>)
    requires forall i :: 0 <= i < |parts| ==> IsName(parts[i])
    ensures Components(PushAll(path, parts)) == Components(path) + Normals(parts)
  {
    if parts == [] {
      assert Normals(parts) == [];
    } else {
      var n := |parts| - 1;
      PushedNamesAreRead(path, parts[..n]);
      PushAddsOne(PushAll(path, parts[..n]), parts[n]);
      NormalsGrow(parts[..n], parts[n]);
      assert parts == parts[..n] + [parts[n]];
    }
  }

  lemma PushedEndsInName(path: string, parts: seq<string>)
    requires parts != [] && forall i :: 0 <= i < |parts| ==> IsName(parts[i])
    ensures EndsInName(PushAll(path, parts))
  {
  }

  /** Joining the pushed names at once is pushing them one by one. */
  lemma {:induction false} JoinIsPushAll(root: string, parts: seq<string>)
    requires parts != [] && forall i :: 0 <= i < |parts| ==> IsName(parts[i])
    ensures Push(root, PushAll("", parts)) == PushAll(root, parts)
  {
    var n := |parts| - 1;
    if n == 0 {
      assert PushAll("", parts[..0]) == "" && PushAll(root, parts[..0]) == root;
      assert "" + parts[0] == parts[0];
    } else {
      JoinIsPushAll(root, parts[..n]);
      PushedEndsInName("", parts[..n]);
      PushedEndsInName(root, parts[..n]);
      JoinStep(root, PushAll("", parts[..n]), PushAll(root, parts[..n]), parts[n]);
    }
  }

  predicate EndsInName(path: string) { path != "" && path[|path| - 1] != '/' }

  lemma JoinTexts(root: string, inner: string, part: string)
    ensures root + (inner + "/" + part) == root + inner + "/" + part
    ensures root + "/" + (inner + "/" + part) == root + "/" + inner + "/" + part
  {
  }

  lemma JoinStep(root: string, inner: string, whole: string, part: string)
    requires EndsInName(inner) && EndsInName(whole) && Push(root, inner) == whole
    ensures Push(root, Push(inner, part)) == Push(whole, part)
  {
    assert Push(inner, part) == inner + "/" + part && Push(whole, part) == whole + "/" + part;
    JoinTexts(root, inner, part);
  }

  /** Every `Normal` component carries a name. */
  lemma {:induction false} NormalsAreNames(pieces: seq<string>)
    requires forall i :: 0 <= i < |pieces| ==> '/' !in pieces[i]
    ensures forall c :: c in Body(pieces) && c.Normal? ==> IsName(c.name)
  {
    if pieces != [] { NormalsAreNames(pieces[1..]); }
  }

  lemma {:induction false} PiecesHaveNoSeparator(path: string, separator: char)
    ensures forall i :: 0 <= i < |Pieces(path, separator)| ==> separator !in Pieces(path, separator)[i]
    decreases |path|
  {
    SplitParts(path, separator);
    var first := Split(path, separator);
    if first.Some? { PiecesHaveNoSeparator(first.value.1, separator); }
  }

  lemma ComponentsAreNames(path: string)
    ensures forall c :: c in Components(path) && c.Normal? ==> IsName(c.name)
  {
    PiecesHaveNoSeparator(path, '/');
    NormalsAreNames(Pieces(path, '/'));
  }
}

/** Host directories inside a workspace, and what the container and the editor make of them. */
module Workspaces {
  import opened Wrappers
  import opened Text
  import opened Paths

  datatype WorkspaceError = EmptyPath | NotRelative | NotNormal | OutsideRoot | OutsideWorkspace

  /** The names of components that are all `Normal`. */
  function NamesOf(components: seq<Component>): (r: Option<seq<string>>)
    ensures r.Some? <==> forall i :: 0 <= i < |components| ==> components[i].Normal?
    ensures r.Some? ==> components == Normals(r.value)
  {
    if components == [] then Some([])
    else
      var n := |components| - 1;
      var rest := NamesOf(components[..n]);
      assert components == components[..n] + [components[n]];
      if rest.None? || !components[n].Normal? then None else Some(rest.value + [components[n].name])
  }

  /** `strip_prefix`, by components. */
  function Stripped(path: string, root: string): Option<seq<Component>> {
    if Components(root) <= Components(path) then Some(Components(path)[|Components(root)|..]) else None
  }

  const MOUNT_POINT := "/workspace"

  /** The container directory a host directory is, by what it must be. */
  function ContainerDirectory(workspace: string, directory: string): Option<string> {
    var relative := Stripped(directory, workspace);
    var names := if relative.Some? then NamesOf(relative.value) else None;
    if names.Some? then Some(PushAll(MOUNT_POINT, names.value)) else None
  }

  /** The loop both functions run over the components, from an empty or a mount-point path. */
  method PushNormals(start: string, components: seq<Component>) returns (r: Option<string>)
    ensures r == if NamesOf(components).Some? then Some(PushAll(start, NamesOf(components).value)) else None
  {
    var path := start;
    for i := 0 to |components|
      invariant NamesOf(components[..i]).Some? && path == PushAll(start, NamesOf(components[..i]).value)
    {
      if !components[i].Normal? { return None; }
      assert components[..i + 1][..i] == components[..i];
      ghost var names := NamesOf(components[..i]).value;
      assert (names + [components[i].name])[..|names|] == names;
      path := Push(path, components[i].name);
    }
    assert components[..|components|] == components;
    return Some(path);
  }

  method ContainerWorkingDirectory(workspace: string, directory: string) returns (r: Option<string>)
    ensures r == ContainerDirectory(workspace, directory)
  {
    var relative := Stripped(directory, workspace);
    if relative.None? { return None; }
    r := PushNormals(MOUNT_POINT, relative.value);
  }

  lemma RootAlone()
    ensures Components("/") == [RootDir]
  {
  }

  lemma MountPointComponents()
    ensures Components(MOUNT_POINT) == [RootDir, Normal("workspace")]
  {
    RootAlone();
    PushAddsOne("/", "workspace");
    assert Push("/", "workspace") == MOUNT_POINT;
  }

  /**
   * A host directory maps into the container exactly when it lies in the workspace by normal
   * components only, and then to `/workspace` and the same components.
   */
  lemma MappingKeepsComponents(workspace: string, directory: string)
    ensures var mapped := ContainerDirectory(workspace, directory);
      && (mapped.Some? <==> exists names :: Components(directory) == Components(workspace) + Normals(names))
      && (mapped.Some? ==>
        Components(mapped.value) == [RootDir, Normal("workspace")] + Components(directory)[|Components(workspace)|..])
  {
    var root, all := Components(workspace), Components(directory);
    var mapped := ContainerDirectory(workspace, directory);
    if mapped.Some? {
      var rest := Stripped(directory, workspace).value;
      var names := NamesOf(rest).value;
      assert all == root + Normals(names);
      ComponentsAreNames(directory);
      forall i | 0 <= i < |names| ensures IsName(names[i]) { assert rest[i] == Normal(names[i]) && rest[i] in all; }
      PushedNamesAreRead(MOUNT_POINT, names);
      MountPointComponents();
    }
    if names :| all == root + Normals(names) {
      assert all[|root|..] == Normals(names);
    }
  }

  /** Directories with the same image have the same components. */
  lemma MappingIsInjective(workspace: string, a: string, b: string)
    requires ContainerDirectory(workspace, a).Some? && ContainerDirectory(workspace, a) == ContainerDirectory(workspace, b)
    ensures Components(a) == Components(b)
  {
    MappingKeepsComponents(workspace, a);
    MappingKeepsComponents(workspace, b);
    var root := Components(workspace);
    var image := Components(ContainerDirectory(workspace, a).value);
    assert image[2..] == Components(a)[|root|..] && image[2..] == Components(b)[|root|..];
    assert Components(a) == root + Components(a)[|root|..] && Components(b) == root + Components(b)[|root|..];
  }

  predicate ValidWorkspace(path: string) {
    && IsAbsolute(path) && Components(path) != [RootDir] && ',' !in path && ':' !in path
    && forall c :: c in Components(path) ==> !c.ParentDir? && !c.CurDir?
  }

  function MountOption(workspace: string): string {
    "type=bind" + [','] + ("src=" + workspace) + [','] + "dst=/workspace" + [','] + "relabel=private"
  }

  /** A valid workspace cannot add an option to the mount: the container runtime reads four fields. */
  lemma MountHasFourFields(workspace: string)
    requires ValidWorkspace(workspace)
    ensures Pieces(MountOption(workspace), ',') == ["type=bind", "src=" + workspace, "dst=/workspace", "relabel=private"]
  {
    FourFields("type=bind", "src=" + workspace, "dst=/workspace", "relabel=private", ',');
  }

  lemma FourFields(a: string, b: string, c: string, d: string, mark: char)
    requires mark !in a && mark !in b && mark !in c && mark !in d
    ensures Pieces(a + [mark] + b + [mark] + c + [mark] + d, mark) == [a, b, c, d]
  {
    SplitOfAbsent(a, mark);
    assert Pieces(a, mark) == [a];
    PiecesGrow(a, mark, b);
    PiecesGrow(a + [mark] + b, mark, c);
    PiecesGrow(a + [mark] + b + [mark] + c, mark, d);
  }

  // ---------------------------------------------------------------------
  // Paths the editor asks for
  // ---------------------------------------------------------------------

  predicate Blank(s: string) { forall i :: 0 <= i < |s| ==> IsWhitespace(s[i]) }

  /** The normalized path, given that the workspace exists; the error of the first rule broken. */
  function Resolve(path: string, allowEmpty: bool): Result<string, WorkspaceError> {
    if !allowEmpty && Blank(path) then Err(EmptyPath)
    else if IsAbsolute(path) then Err(NotRelative)
    else
      var names := NamesOf(Components(path));
      if names.None? then Err(NotNormal)
      else
        var normalized := PushAll("", names.value);
        if !allowEmpty && normalized == "" then Err(EmptyPath) else Ok(normalized)
  }

  method ResolveRelativeComponents(path: string, allowEmpty: bool) returns (r: Result<string, WorkspaceError>)
    ensures r == Resolve(path, allowEmpty)
  {
    if !allowEmpty && Blank(path) { return Err(EmptyPath); }
    if IsAbsolute(path) { return Err(NotRelative); }
    var normalized := PushNormals("", Components(path));
    if normalized.None? { return Err(NotNormal); }
    if !allowEmpty && normalized.value == "" { return Err(EmptyPath); }
    return Ok(normalized.value);
  }

  lemma ResolvedKeepsComponents(path: string, allowEmpty: bool)
    requires Resolve(path, allowEmpty).Ok?
    ensures Components(Resolve(path, allowEmpty).value) == Components(path)
    ensures NamesOf(Components(path)).Some?
    ensures forall i :: 0 <= i < |NamesOf(Components(path)).value| ==> IsName(NamesOf(Components(path)).value[i])
  {
    var names := NamesOf(Components(path)).value;
    ComponentsAreNames(path);
    forall i | 0 <= i < |names| ensures IsName(names[i]) {
      assert Components(path)[i] == Normal(names[i]) && Components(path)[i] in Components(path);
    }
    PushedNamesAreRead("", names);
    EmptyHasNoComponents();
  }

  /** A path that is relative exactly when it has no root. */
  lemma RootIsAComponent(path: string)
    ensures IsAbsolute(path) <==> Components(path) != [] && Components(path)[0].RootDir?
  {
    BodyHasNoRoot(Pieces(path, '/'));
  }

  lemma {:induction false} BodyHasNoRoot(pieces: seq<string>)
    ensures forall c :: c in Body(pieces) ==> !c.RootDir? && !c.CurDir?
  {
    if pieces != [] { BodyHasNoRoot(pieces[1..]); }
  }

  lemma FirstPieceIsMentioned(pieces: seq<string>)
    requires pieces != [] && pieces[0] != "" && pieces[0] != "."
    ensures Body(pieces) != []
  {
  }

  /** A relative path that is not empty has a component. */
  lemma RelativeHasComponents(path: string)
    requires path != "" && !IsAbsolute(path)
    ensures Components(path) != []
  {
    SplitParts(path, '/');
    var pieces := Pieces(path, '/');
    var first := Split(path, '/');
    if first.Some? {
      assert first.value.0 != "";
      if pieces[0] == "." {
        assert path == "." + ['/'] + first.value.1;
        assert path[0] == '.' && path[1] == '/' && "./" <= path;
      }
    }
    if pieces[0] != "." { FirstPieceIsMentioned(pieces); }
  }

  /**
   * A path is accepted exactly if it is relative, all its components are names, and it is not
   * blank where empty paths are refused; otherwise the error is that of the first rule broken.
   */
  lemma ResolveIsExact(path: string, allowEmpty: bool)
    ensures Resolve(path, allowEmpty).Ok? <==>
      && (allowEmpty || !Blank(path)) && !IsAbsolute(path)
      && forall i :: 0 <= i < |Components(path)| ==> Components(path)[i].Normal?
    ensures !allowEmpty && Blank(path) ==> Resolve(path, allowEmpty) == Err(EmptyPath)
    ensures (allowEmpty || !Blank(path)) && IsAbsolute(path) ==> Resolve(path, allowEmpty) == Err(NotRelative)
    ensures (allowEmpty || !Blank(path)) && !IsAbsolute(path) && Resolve(path, allowEmpty).Err? ==>
      Resolve(path, allowEmpty) == Err(NotNormal)
  {
    var names := NamesOf(Components(path));
    if !allowEmpty && !Blank(path) && !IsAbsolute(path) && names.Some? {
      RelativeHasComponents(path);
      AllAreNames(path);
      NothingIsEmpty(names.value);
      BlankJoin(names.value);
    }
  }

  lemma AllAreNames(path: string)
    requires NamesOf(Components(path)).Some?
    ensures forall i :: 0 <= i < |NamesOf(Components(path)).value| ==> IsName(NamesOf(Components(path)).value[i])
  {
    var names := NamesOf(Components(path)).value;
    ComponentsAreNames(path);
    forall i | 0 <= i < |names| ensures IsName(names[i]) {
      assert Components(path)[i] == Normal(names[i]) && Components(path)[i] in Components(path);
    }
  }

  /** The request names one component, and its name is white space only. */
  predicate OnlyBlankName(path: string) {
    var components := Components(path);
    |components| == 1 && components[0].Normal? && Blank(components[0].name)
  }

  /** Joined names are white space only exactly when there is one such name: the separator is not white space. */
  lemma BlankJoin(names: seq<string>)
    requires names != [] && forall i :: 0 <= i < |names| ==> IsName(names[i])
    ensures Blank(PushAll("", names)) <==> |names| == 1 && Blank(names[0])
    ensures PushAll("", names) != ""
  {
    var n := |names| - 1;
    var inner := PushAll("", names[..n]);
    if n == 0 {
      assert PushAll("", names) == names[0];
    } else {
      PushedEndsInName("", names[..n]);
      assert PushAll("", names) == inner + "/" + names[n];
      assert (inner + "/" + names[n])[|inner|] == '/';
    }
  }

  /**
   * What normalizing returns has the components of what was asked for, and normalizing it again
   * changes nothing, except where empty paths are refused and the request is one blank name.
   */
  lemma ResolvingIsIdempotent(path: string, allowEmpty: bool)
    requires Resolve(path, allowEmpty).Ok?
    ensures var normalized := Resolve(path, allowEmpty).value;
      && Components(normalized) == Components(path)
      && (Resolve(normalized, allowEmpty) == Ok(normalized) <==> allowEmpty || !OnlyBlankName(path))
      && (!allowEmpty && OnlyBlankName(path) ==> Resolve(normalized, allowEmpty) == Err(EmptyPath))
  {
    var normalized := Resolve(path, allowEmpty).value;
    var names := NamesOf(Components(path)).value;
    ResolvedKeepsComponents(path, allowEmpty);
    RootIsAComponent(path);
    RootIsAComponent(normalized);
    if !allowEmpty {
      NothingIsEmpty(names);
      BlankJoin(names);
    }
  }

  /** A blank name with a trailing separator passes the check for emptiness, and its normal form does not. */
  lemma NormalFormCanBeRefused()
    ensures Resolve(" /", false) == Ok(" ") && Resolve(" ", false) == Err(EmptyPath)
  {
    BlankWithSeparator();
    assert (" /")[0] == ' ' && (" /")[1] == '/' && !Blank(" /");
    NamedAlone(" /", " ");
    assert (" ")[0] == ' ' && Blank(" ");
  }

  lemma BlankWithSeparator()
    ensures Components(" /") == [Normal(" ")]
  {
    TrailingSeparator(" ");
    NameAlone(" ");
    assert " " + "/" == " /" && !LeadingDot(" /");
  }

  lemma NamedAlone(path: string, name: string)
    requires Components(path) == [Normal(name)] && name != "" && !Blank(path) && !IsAbsolute(path)
    ensures Resolve(path, false) == Ok(name)
  {
    var names := NamesOf(Components(path)).value;
    assert |Normals(names)| == 1 && Normals(names)[0] == Normal(names[0]);
    assert names == [name] && names[..0] == [];
    assert PushAll("", names) == name;
  }

  /** `ensure_within_root` and `ensure_below_root`: path equality and prefixes are by components. */
  predicate WithinRoot(root: string, path: string) {
    Components(path) == Components(root) || Stripped(path, root).Some?
  }

  predicate BelowRoot(root: string, path: string) {
    Components(path) != Components(root) && Stripped(path, root).Some?
  }

  /** Inside a root are exactly the paths that go on from its components, and below it those that go further. */
  lemma InsideIsAPrefix(root: string, path: string)
    ensures WithinRoot(root, path) <==> Components(root) <= Components(path)
    ensures BelowRoot(root, path) <==> Components(root) < Components(path)
  {
  }

  lemma LongerIsInside(root: string, path: string, more: seq<Component>)
    requires Components(path) == Components(root) + more
    ensures WithinRoot(root, path) && (BelowRoot(root, path) <==> more != [])
  {
  }

  lemma JoinOfNothing(root: string)
    requires IsAbsolute(root)
    ensures Components(Push(root, "")) == Components(root)
  {
    TrailingSeparator(root);
    assert Push(root, "") == root || Push(root, "") == root + "/";
  }

  lemma JoinKeepsComponents(root: string, names: seq<string>)
    requires IsAbsolute(root) && forall i :: 0 <= i < |names| ==> IsName(names[i])
    ensures Components(Push(root, PushAll("", names))) == Components(root) + Normals(names)
  {
    if names == [] {
      JoinOfNothing(root);
      NothingIsEmpty(names);
    } else {
      JoinIsPushAll(root, names);
      PushedNamesAreRead(root, names);
    }
  }

  /**
   * Joined to any root, a normalized path never leaves it, and lies strictly below it exactly
   * when it is not empty.
   */
  lemma ResolvedStaysInside(root: string, path: string, allowEmpty: bool)
    requires IsAbsolute(root) && Resolve(path, allowEmpty).Ok?
    ensures var joined := Push(root, Resolve(path, allowEmpty).value);
      && Components(joined) == Components(root) + Components(path)
      && WithinRoot(root, joined) && (BelowRoot(root, joined) <==> Components(path) != [])
    ensures !allowEmpty ==> Components(path) != []
  {
    ResolvedKeepsComponents(path, allowEmpty);
    EmptyHasNoComponents();
    var names := NamesOf(Components(path)).value;
    JoinKeepsComponents(root, names);
    LongerIsInside(root, Push(root, PushAll("", names)), Components(path));
    NothingIsEmpty(names);
  }

  lemma NothingIsEmpty(names: seq<string>)
    ensures names == [] ==> PushAll("", names) == "" && Normals(names) == []
    ensures Normals(names) == [] ==> names == []
  {
  }
}
