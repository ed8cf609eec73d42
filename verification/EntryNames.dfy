/**
 Names of collection entries (src/collection_transfer.rs): a relative path becomes a `/`-joined name at
 import, and a name becomes a path under the export root.
 */
module EntryNames {
  import opened Text

  datatype Component = Normal(name: string) | CurDir | ParentDir | RootDir | Prefix
  datatype Result<T> = Ok(value: T) | Err

  predicate ValidComponent(c: string) {
    c != "" && '/' !in c && '\\' !in c && c != "." && c != ".."
  }

  predicate ValidPath(path: seq<Component>) {
    forall i | 0 <= i < |path| :: path[i].Normal? && ValidComponent(path[i].name)
  }

  function Names(path: seq<Component>): seq<string> {
    if path == [] then []
    else Names(path[..|path| - 1]) + [if path[|path| - 1].Normal? then path[|path| - 1].name else ""]
  }

  lemma {:induction false} NamesAt(path: seq<Component>)
    ensures |Names(path)| == |path|
    ensures forall i | 0 <= i < |path| && path[i].Normal? :: Names(path)[i] == path[i].name
  {
    if path != [] { NamesAt(path[..|path| - 1]); }
  }

  /** `canonicalized_path_to_string`: every component must be an ordinary, valid one. */
  method PathToName(path: seq<Component>) returns (r: Result<string>)
    ensures r == Import(path)
  {
    var parts: seq<string> := [];
    for i := 0 to |path|
      invariant parts == Names(path[..i]) && ValidPath(path[..i])
    {
      assert path[..i + 1][..i] == path[..i];
      match path[i] {
        case Normal(c) =>
          if !ValidComponent(c) {
            return Err;
          }
          parts := parts + [c];
        case _ => return Err;
      }
    }
    assert path[..|path|] == path;
    r := Ok(Join(parts, '/'));
  }

  ghost predicate AllValid(parts: seq<string>) { forall p | p in parts :: ValidComponent(p) }

  /** The export path of a name, up to the final containment check: the root followed by the parts. */
  ghost function Export(root: seq<string>, name: string): Result<seq<string>> {
    if AllValid(Split(name, '/')) then Ok(root + Split(name, '/')) else Err
  }

  /** `get_export_path` up to that check. */
  method ExportPath(root: seq<string>, name: string) returns (r: Result<seq<string>>)
    ensures r == Export(root, name)
  {
    var path := root;
    var parts := Split(name, '/');
    for i := 0 to |parts|
      invariant path == root + parts[..i] && AllValid(parts[..i])
    {
      if !ValidComponent(parts[i]) {
        assert parts[i] in parts;
        return Err;
      }
      assert parts[..i + 1] == parts[..i] + [parts[i]];
      path := path + [parts[i]];
    }
    assert parts[..|parts|] == parts;
    r := Ok(path);
  }

  lemma PathNames(path: seq<Component>)
    requires ValidPath(path)
    ensures |Names(path)| == |path| && AllValid(Names(path))
  {
  }

  /** The name of a path, as `PathToName` gives it. */
  ghost function Import(path: seq<Component>): Result<string> {
    if ValidPath(path) then Ok(Join(Names(path), '/')) else Err
  }

  /** What a component may be, spelled out. */
  ghost predicate Plain(c: string) {
    c != "" && c != "." && c != ".." && forall i | 0 <= i < |c| :: c[i] != '/' && c[i] != '\\'
  }

  /** Exactly the paths of plain names have a name, and exactly the names of plain parts a path. */
  lemma AcceptedIff(path: seq<Component>, root: seq<string>, name: string)
    ensures Import(path).Ok? <==> forall i | 0 <= i < |path| :: path[i].Normal? && Plain(path[i].name)
    ensures Export(root, name).Ok? <==> forall p | p in Split(name, '/') :: Plain(p)
  {
    forall c: string
      ensures Plain(c) <==> ValidComponent(c)
    {
    }
    hide Plain, ValidComponent;
  }

  /** Exporting the name of an imported path gives the root followed by that path; only the empty path has no export. */
  lemma ImportExport(root: seq<string>, path: seq<Component>)
    requires Import(path).Ok?
    ensures Export(root, Import(path).value) == if path == [] then Err else Ok(root + Names(path))
  {
    PathNames(path);
    if path == [] {
      assert Split("", '/') == [""];
      assert "" in Split("", '/');
    } else {
      SplitJoin(Names(path), '/');
    }
  }

  lemma {:induction false} JoinNonEmpty(parts: seq<string>)
    requires parts != [] && AllValid(parts)
    ensures Join(parts, '/') != ""
  {
    assert parts[0] in parts;
  }

  /** Distinct paths get distinct names, the empty path included. */
  lemma NamesAreDistinct(a: seq<Component>, b: seq<Component>)
    requires Import(a).Ok? && Import(a) == Import(b)
    ensures a == b
  {
    PathNames(a);
    PathNames(b);
    if a != [] { JoinNonEmpty(Names(a)); }
    if b != [] { JoinNonEmpty(Names(b)); }
    if a != [] && b != [] {
      SplitJoin(Names(a), '/');
      SplitJoin(Names(b), '/');
      NamesAt(a);
      NamesAt(b);
      forall i | 0 <= i < |a|
        ensures a[i] == b[i]
      {
        assert a[i] == Normal(Names(a)[i]) && b[i] == Normal(Names(b)[i]);
      }
    }
  }

  function AsPath(parts: seq<string>): seq<Component> {
    if parts == [] then [] else AsPath(parts[..|parts| - 1]) + [Normal(parts[|parts| - 1])]
  }

  lemma {:induction false} AsPathNames(parts: seq<string>)
    ensures Names(AsPath(parts)) == parts && |AsPath(parts)| == |parts|
    ensures AllValid(parts) ==> ValidPath(AsPath(parts))
  {
    if parts != [] {
      var n := |parts| - 1;
      AsPathNames(parts[..n]);
      assert AsPath(parts)[..n] == AsPath(parts[..n]);
      assert parts == parts[..n] + [parts[n]];
    }
  }

  /**
   An accepted name leads under the root: the export is the root followed by non-empty parts free of
   separators and of `.` and `..`, and importing those parts gives the same name again.
   */
  lemma ExportImport(root: seq<string>, name: string)
    requires Export(root, name).Ok?
    ensures var path := Export(root, name).value;
      && root <= path && |root| < |path|
      && (forall p | p in path[|root|..] :: p != "." && p != ".." && p != "" && '/' !in p && '\\' !in p)
      && Import(AsPath(path[|root|..])) == Ok(name)
  {
    var parts := Split(name, '/');
    JoinSplit(name, '/');
    AsPathNames(parts);
    assert (root + parts)[|root|..] == parts;
  }
}
