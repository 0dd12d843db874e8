/** What a fetched repository installs, read off its structure. */
module Manifest {
  import opened Wrappers
  import opened Archive

  /** An empty file name is none; the path of "." is empty. */
  datatype Hacs = Hacs(category: string, filename: Option<Path>)

  /** JSON decoding and file name conventions. */
  datatype Reader = Reader(
    hacs: string -> Option<Hacs>,
    domain: string -> Option<string>,
    hasExtension: (string, string) -> bool,
    stem: string -> string)

  datatype Component = Component(source: Path, target: string)

  datatype Refusal = Mismatch | Malformed

  const INTEGRATION := "integration"
  const COMPONENTS := ["custom_components"]
  const HACS_FILE := ["hacs.json"]

  /** The content of a retained file. */
  function Content(r: Repo, p: Path): Option<string> {
    if p in r.files then r.files[p].content else None
  }

  // ---------- Specification: no order anywhere ----------

  function SubDirs(r: Repo, parent: Path): set<string> {
    set p <- r.dirs | |p| == |parent| + 1 && parent <= p && p !in r.files :: p[|parent|]
  }

  predicate Fits(reader: Reader, name: string, extensions: seq<string>) {
    extensions == [] || exists e <- extensions :: reader.hasExtension(name, e)
  }

  function Matches(r: Repo, reader: Reader, parent: Path, extensions: seq<string>): set<string> {
    set p <- r.files | |p| == |parent| + 1 && parent <= p && Fits(reader, p[|parent|], extensions) :: p[|parent|]
  }

  function Base(p: Path): string { if p == [] then "." else p[|p| - 1] }

  function Exists(r: Repo, parent: Path): bool { parent == [] || parent in r.dirs }

  ghost function Integration(r: Repo, reader: Reader): Result<Component, Refusal> {
    var dirs := SubDirs(r, COMPONENTS);
    if !Exists(r, COMPONENTS) || !(exists d :: dirs == {d}) then Failure(Malformed)
    else
      var source := COMPONENTS + [TheOnly(dirs)];
      match Content(r, source + ["manifest.json"])
      case None => Failure(Malformed)
      case Some(text) =>
        if reader.domain(text).None? || reader.domain(text).value == "" then Failure(Malformed)
        else Success(Component(source, reader.domain(text).value))
  }

  ghost function SingleFile(r: Repo, reader: Reader, parent: Path, extensions: seq<string>)
    : Result<Component, Refusal>
  {
    var matches := Matches(r, reader, parent, extensions);
    if !Exists(r, parent) || !(exists n :: matches == {n}) then Failure(Malformed)
    else Success(Component(parent + [TheOnly(matches)], reader.stem(TheOnly(matches))))
  }

  ghost function Resolution(r: Repo, reader: Reader, category: string): Result<Component, Refusal> {
    var text := Content(r, HACS_FILE);
    var hacs := if text.Some? then reader.hacs(text.value) else None;
    if HACS_FILE in r.files && hacs.None? then Failure(Malformed)
    else if hacs.Some? && hacs.value.category != "" && hacs.value.category != category then Failure(Mismatch)
    else if category == INTEGRATION then Integration(r, reader)
    else if category == "plugin" then
      if hacs.Some? && hacs.value.filename.Some? then
        var p := hacs.value.filename.value;
        if p in r.files || p in r.dirs then Success(Component(p, reader.stem(Base(p)))) else Failure(Malformed)
      else SingleFile(r, reader, [], [".js"])
    else if category == "theme" then SingleFile(r, reader, ["themes"], [".yaml", ".yml"])
    else if category == "python_script" then SingleFile(r, reader, ["python_scripts"], [".py"])
    else if category == "template" then SingleFile(r, reader, ["custom_templates"], [])
    else Failure(Malformed)
  }

  // ---------- The code: first listing, in any order, then counting ----------

  /** A list without repetition names a single element exactly when it has length one. */
  lemma SingleOfList(names: seq<string>, all: set<string>)
    requires (forall i, j :: 0 <= i < j < |names| ==> names[i] != names[j]) && all == set n <- names
    ensures |names| == 1 <==> exists n :: all == {n}
    ensures |names| == 1 ==> all == {names[0]} && TheOnly(all) == names[0]
  {
    if |names| == 1 {
      assert all == {names[0]};
    } else if names != [] {
      assert names[0] in all && names[1] in all;
    }
  }

  method ResolveIntegration(r: Repo, reader: Reader) returns (c: Result<Component, Refusal>)
    ensures c == Integration(r, reader)
  {
    var listing := ReadDir(r, COMPONENTS);
    if listing.None? {
      return Failure(Malformed);
    }
    var entries := listing.value;
    var found: seq<string> := [];
    var i := 0;
    while i < |entries|
      invariant 0 <= i <= |entries|
      invariant forall n :: n in found <==> DirEntry(n, true) in entries[..i]
      invariant forall j, k :: 0 <= j < k < |found| ==> found[j] != found[k]
    {
      assert entries[..i + 1] == entries[..i] + [entries[i]];
      if entries[i].isDir {
        assert entries[i] == DirEntry(entries[i].name, true);
        found := found + [entries[i].name];
      }
      i := i + 1;
    }
    assert entries[..i] == entries;
    ListedDirs(r, COMPONENTS, entries, found);
    SingleOfList(found, SubDirs(r, COMPONENTS));
    if |found| != 1 {
      return Failure(Malformed);
    }
    var source := COMPONENTS + [found[0]];
    var text := Content(r, source + ["manifest.json"]);
    if text.None? {
      return Failure(Malformed);
    }
    var domain := reader.domain(text.value);
    if domain.None? || domain.value == "" {
      return Failure(Malformed);
    }
    return Success(Component(source, domain.value));
  }

  lemma ListedDirs(r: Repo, parent: Path, entries: seq<DirEntry>, found: seq<string>)
    requires forall n :: DirEntry(n, true) in entries <==> parent + [n] in r.dirs && parent + [n] !in r.files
    requires forall n :: n in found <==> DirEntry(n, true) in entries
    ensures SubDirs(r, parent) == set n <- found
  {
    forall n
      ensures n in SubDirs(r, parent) <==> n in found
    {
      if n in SubDirs(r, parent) {
        var p :| p in r.dirs && |p| == |parent| + 1 && parent <= p && p !in r.files && p[|parent|] == n;
        assert p == parent + [n];
      }
      if n in found {
        assert (parent + [n])[|parent|] == n;
      }
    }
  }

  lemma ListedFiles(r: Repo, reader: Reader, parent: Path, extensions: seq<string>,
                    entries: seq<DirEntry>, found: seq<string>)
    requires forall n :: DirEntry(n, false) in entries <==> parent + [n] in r.files
    requires forall n :: n in found <==> DirEntry(n, false) in entries && Fits(reader, n, extensions)
    ensures Matches(r, reader, parent, extensions) == set n <- found
  {
    forall n
      ensures n in Matches(r, reader, parent, extensions) <==> n in found
    {
      if n in Matches(r, reader, parent, extensions) {
        var p :| p in r.files && |p| == |parent| + 1 && parent <= p && p[|parent|] == n;
        assert p == parent + [n];
      }
      if n in found {
        assert (parent + [n])[|parent|] == n;
      }
    }
  }

  method ResolveSingleFile(r: Repo, reader: Reader, parent: Path, extensions: seq<string>)
    returns (c: Result<Component, Refusal>)
    ensures c == SingleFile(r, reader, parent, extensions)
  {
    var listing := ReadDir(r, parent);
    if listing.None? {
      return Failure(Malformed);
    }
    var entries := listing.value;
    var found: seq<string> := [];
    var i := 0;
    while i < |entries|
      invariant 0 <= i <= |entries|
      invariant forall n :: n in found <==> DirEntry(n, false) in entries[..i] && Fits(reader, n, extensions)
      invariant forall j, k :: 0 <= j < k < |found| ==> found[j] != found[k]
    {
      assert entries[..i + 1] == entries[..i] + [entries[i]];
      var fits := CheckExtensions(reader, entries[i].name, extensions);
      if !entries[i].isDir && fits {
        assert entries[i] == DirEntry(entries[i].name, false);
        found := found + [entries[i].name];
      }
      i := i + 1;
    }
    assert entries[..i] == entries;
    ListedFiles(r, reader, parent, extensions, entries, found);
    SingleOfList(found, Matches(r, reader, parent, extensions));
    if |found| != 1 {
      return Failure(Malformed);
    }
    return Success(Component(parent + [found[0]], reader.stem(found[0])));
  }

  method CheckExtensions(reader: Reader, name: string, extensions: seq<string>) returns (fits: bool)
    ensures fits == Fits(reader, name, extensions)
  {
    if extensions == [] {
      return true;
    }
    var i := 0;
    while i < |extensions|
      invariant 0 <= i <= |extensions| && forall e <- extensions[..i] :: !reader.hasExtension(name, e)
    {
      if reader.hasExtension(name, extensions[i]) {
        assert extensions[i] in extensions;
        return true;
      }
      assert extensions[..i + 1] == extensions[..i] + [extensions[i]];
      i := i + 1;
    }
    assert extensions[..i] == extensions;
    return false;
  }

  /** ValidateAndResolve: its result is a function of the tree, whatever order the maps are iterated in. */
  method ValidateAndResolve(r: Repo, reader: Reader, category: string) returns (c: Result<Component, Refusal>)
    ensures c == Resolution(r, reader, category)
  {
    var hacs: Option<Hacs> := None;
    if HACS_FILE in r.files {
      var text := Content(r, HACS_FILE);
      if text.None? {
        return Failure(Malformed);
      }
      hacs := reader.hacs(text.value);
      if hacs.None? {
        return Failure(Malformed);
      }
    }
    if hacs.Some? && hacs.value.category != "" && hacs.value.category != category {
      return Failure(Mismatch);
    }
    if category == INTEGRATION {
      c := ResolveIntegration(r, reader);
    } else if category == "plugin" {
      if hacs.Some? && hacs.value.filename.Some? {
        var p := hacs.value.filename.value;
        return if p in r.files || p in r.dirs then Success(Component(p, reader.stem(Base(p)))) else Failure(Malformed);
      }
      c := ResolveSingleFile(r, reader, [], [".js"]);
    } else if category == "theme" {
      c := ResolveSingleFile(r, reader, ["themes"], [".yaml", ".yml"]);
    } else if category == "python_script" {
      c := ResolveSingleFile(r, reader, ["python_scripts"], [".py"]);
    } else if category == "template" {
      c := ResolveSingleFile(r, reader, ["custom_templates"], []);
    } else {
      c := Failure(Malformed);
    }
  }

  /** A resolved integration really has its manifest in the tree, and no other candidate beside it. */
  lemma ResolvedIntegrationExists(r: Repo, reader: Reader)
    requires Integration(r, reader).Success?
    ensures var c := Integration(r, reader).value;
            && |c.source| == 2 && c.source in r.dirs && c.source + ["manifest.json"] in r.files && c.target != ""
            && forall d <- r.dirs :: |d| == 2 && d[0] == "custom_components" && d !in r.files ==> d == c.source
  {
    var c := Integration(r, reader).value;
    var dirs := SubDirs(r, COMPONENTS);
    var d := TheOnly(dirs);
    assert d in dirs;
    var p :| p in r.dirs && |p| == 2 && COMPONENTS <= p && p !in r.files && p[1] == d;
    assert p == COMPONENTS + [d];
    forall q | q in r.dirs && |q| == 2 && q[0] == "custom_components" && q !in r.files
      ensures q == c.source
    {
      assert COMPONENTS <= q && q[1] in dirs;
      assert q == COMPONENTS + [q[1]];
    }
  }

  // ---------- What each category installs ----------

  /** The only file directly in parent with one of two extensions; an empty second one stands for none. */
  ghost predicate SoleFile(r: Repo, reader: Reader, parent: Path, one: string, two: string, n: string) {
    && parent + [n] in r.files && Extension(reader, n, one, two)
    && forall m: string :: parent + [m] in r.files && Extension(reader, m, one, two) ==> m == n
  }

  predicate Extension(reader: Reader, n: string, one: string, two: string) {
    one == "" || reader.hasExtension(n, one) || (two != "" && reader.hasExtension(n, two))
  }

  predicate SameExtensions(extensions: seq<string>, one: string, two: string) {
    extensions == if one == "" then [] else if two == "" then [one] else [one, two]
  }

  lemma MatchesAre(r: Repo, reader: Reader, parent: Path, extensions: seq<string>, one: string, two: string)
    requires SameExtensions(extensions, one, two)
    ensures forall n: string :: n in Matches(r, reader, parent, extensions) <==>
              parent + [n] in r.files && Extension(reader, n, one, two)
  {
    forall n: string
      ensures n in Matches(r, reader, parent, extensions) <==> parent + [n] in r.files && Extension(reader, n, one, two)
    {
      assert Fits(reader, n, extensions) <==> Extension(reader, n, one, two);
      if parent + [n] in r.files {
        assert (parent + [n])[|parent|] == n && parent <= parent + [n];
      }
      if n in Matches(r, reader, parent, extensions) {
        var p :| p in r.files && |p| == |parent| + 1 && parent <= p && p[|parent|] == n;
        assert p == parent + [n];
      }
    }
  }

  /** Exactly where there is one such file, it is resolved. */
  ghost predicate ResolvesTo(r: Repo, reader: Reader, parent: Path, one: string, two: string,
                             c: Result<Component, Refusal>)
  {
    && (c.Success? <==>
          (parent == [] || parent in r.dirs) && exists n: string :: SoleFile(r, reader, parent, one, two, n))
    && (forall n: string :: c.Success? && SoleFile(r, reader, parent, one, two, n) ==>
          c.value == Component(parent + [n], reader.stem(n)))
    && (c.Failure? ==> c.error == Malformed)
  }

  lemma SingleFileResolves(r: Repo, reader: Reader, parent: Path, extensions: seq<string>, one: string, two: string)
    requires SameExtensions(extensions, one, two)
    ensures ResolvesTo(r, reader, parent, one, two, SingleFile(r, reader, parent, extensions))
  {
    var matches := Matches(r, reader, parent, extensions);
    MatchesAre(r, reader, parent, extensions, one, two);
    forall n: string
      ensures SoleFile(r, reader, parent, one, two, n) <==> matches == {n}
    {
      if matches == {n} {
        assert forall m: string :: m in matches ==> m == n;
      }
      if SoleFile(r, reader, parent, one, two, n) {
        assert forall m: string :: m in matches <==> m == n;
      }
    }
  }

  /** What hacs.json declares; nothing where there is no such file or it cannot be read. */
  function Declared(r: Repo, reader: Reader): Option<Hacs> {
    if ["hacs.json"] in r.files && r.files[["hacs.json"]].content.Some?
    then reader.hacs(r.files[["hacs.json"]].content.value)
    else None
  }

  /** The declaration decides before the structure is looked at. */
  lemma DeclarationFirst(r: Repo, reader: Reader, category: string)
    ensures var c, d := Resolution(r, reader, category), Declared(r, reader);
            && (["hacs.json"] in r.files && d.None? ==> c == Failure(Malformed))
            && (c == Failure(Mismatch) <==> d.Some? && d.value.category != "" && d.value.category != category)
  {
  }

  /** Where the declaration allows it, each category is resolved by its own structure: the one component directory of
      an integration, the file that a plugin's declaration names or its one script, and the one file of the others. */
  lemma ResolvedByCategory(r: Repo, reader: Reader, category: string)
    requires ["hacs.json"] in r.files ==>
               var d := Declared(r, reader); d.Some? && (d.value.category == "" || d.value.category == category)
    ensures var c, d := Resolution(r, reader, category), Declared(r, reader);
            match category
            case "integration" => c == Integration(r, reader)
            case "theme" => ResolvesTo(r, reader, ["themes"], ".yaml", ".yml", c)
            case "python_script" => ResolvesTo(r, reader, ["python_scripts"], ".py", "", c)
            case "template" => ResolvesTo(r, reader, ["custom_templates"], "", "", c)
            case "plugin" =>
              if d.Some? && d.value.filename.Some? then
                var p := d.value.filename.value;
                c == if p in r.files || p in r.dirs
                     then Success(Component(p, reader.stem(if p == [] then "." else p[|p| - 1])))
                     else Failure(Malformed)
              else ResolvesTo(r, reader, [], ".js", "", c)
            case _ => c == Failure(Malformed)
  {
    match category
    case "plugin" => SingleFileResolves(r, reader, [], [".js"], ".js", "");
    case "theme" => SingleFileResolves(r, reader, ["themes"], [".yaml", ".yml"], ".yaml", ".yml");
    case "python_script" => SingleFileResolves(r, reader, ["python_scripts"], [".py"], ".py", "");
    case "template" => SingleFileResolves(r, reader, ["custom_templates"], [], "", "");
    case _ =>
  }

  /** The only directory below custom_components. */
  ghost predicate SoleComponent(r: Repo, d: string) {
    && ["custom_components", d] in r.dirs && ["custom_components", d] !in r.files
    && forall e: string :: ["custom_components", e] in r.dirs && ["custom_components", e] !in r.files ==> e == d
  }

  /** An integration is resolved iff it has one component directory whose manifest can be read and names a domain; and
      the domain is what is installed. */
  lemma IntegrationResolves(r: Repo, reader: Reader)
    requires Shaped(r)
    ensures var c := Integration(r, reader);
            && (c.Failure? ==> c.error == Malformed)
            && (forall d: string :: SoleComponent(r, d) ==>
                  var path := ["custom_components", d, "manifest.json"];
                  var domain := if path in r.files && r.files[path].content.Some?
                                then reader.domain(r.files[path].content.value) else None;
                  if domain.Some? && domain.value != "" then
                    c == Success(Component(["custom_components", d], domain.value))
                  else c.Failure?)
            && (c.Success? ==> exists d: string :: SoleComponent(r, d))
  {
    var dirs := SubDirs(r, COMPONENTS);
    forall d: string
      ensures d in dirs <==> ["custom_components", d] in r.dirs && ["custom_components", d] !in r.files
    {
      assert COMPONENTS + [d] == ["custom_components", d] && (COMPONENTS + [d])[1] == d;
      if d in dirs {
        var p :| p in r.dirs && |p| == 2 && COMPONENTS <= p && p !in r.files && p[1] == d;
        assert p == ["custom_components", d];
      }
    }
    forall d: string
      ensures SoleComponent(r, d) <==> dirs == {d}
      ensures SoleComponent(r, d) ==> Exists(r, COMPONENTS) && TheOnly(dirs) == d
      ensures COMPONENTS + [d] == ["custom_components", d]
      ensures COMPONENTS + [d] + ["manifest.json"] == ["custom_components", d, "manifest.json"]
    {
      if dirs == {d} {
        assert d in dirs;
      }
      if SoleComponent(r, d) {
        var p := ["custom_components", d];
        assert p[..1] == COMPONENTS && p[..1] in Parents(p);
        assert dirs == {d} && TheOnly(dirs) in dirs;
      }
    }
  }
}
