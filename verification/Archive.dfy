/** The in-memory view of a fetched repository archive. A path is the list of its cleaned components. */
module Archive {
  import opened Wrappers

  type Path = seq<string>

  datatype Kind = Directory | Regular(size: int, content: string) | Special

  /** One entry of the tar stream. Damaged stands for a header or content that cannot be read. */
  datatype TarEntry = TarEntry(name: Path, escapes: bool, kind: Kind) | Damaged

  /** A regular file; its content is kept only when it is small. */
  datatype File = File(size: nat, content: Option<string>)

  datatype Repo = Repo(files: map<Path, File>, dirs: set<Path>)

  datatype Problem = Unreadable | TooManyEntries | Escaping | NegativeSize | TooBig | TooMuchHeld | NoSingleTop

  const MAX_RETAINED_ENTRY := 1024 * 1024
  const MAX_RETAINED_TOTAL := 32 * 1024 * 1024
  const MAX_EXTRACTED_TOTAL := 100 * 1024 * 1024
  const MAX_ENTRIES := 20000

  // ---------- Directories ----------

  /** The proper ancestors of a path below the root. */
  function Parents(p: Path): set<Path> { set k | 0 < k < |p| :: p[..k] }

  predicate Closed(dirs: set<Path>) { forall d <- dirs :: Parents(d) <= dirs }

  /** markParentDirs, bottom up. It may stop at the first known directory because known directories are closed under
      ancestors, but for the path itself. */
  method MarkParentDirs(dirs: set<Path>, p: Path) returns (r: set<Path>)
    requires forall d <- dirs :: d != p ==> Parents(d) <= dirs
    ensures r == dirs + Parents(p)
  {
    r := dirs;
    var k := |p| - 1;
    while k > 0
      invariant k < |p| && (p != [] ==> 0 <= k)
      invariant r == dirs + set j | k < j < |p| && 0 < j :: p[..j]
    {
      if p[..k] in r {
        assert forall j :: k < j < |p| ==> |p[..j]| != |p[..k]|;
        assert p[..k] in dirs && |p[..k]| != |p|;
        forall q | q in Parents(p)
          ensures q in r
        {
          var j :| 0 < j < |p| && q == p[..j];
          if j < k {
            assert q == p[..k][..j] && q in Parents(p[..k]);
          }
        }
        assert r == dirs + Parents(p);
        return;
      }
      r := r + {p[..k]};
      k := k - 1;
    }
  }

  // ---------- Extraction ----------

  predicate Sound(e: TarEntry) { e.TarEntry? && !e.escapes && (e.kind.Regular? ==> e.kind.size >= 0) }

  function SizeOf(e: TarEntry): nat { if Sound(e) && e.kind.Regular? then e.kind.size else 0 }

  /** Only files of at most a mebibyte are held. */
  function HeldOf(e: TarEntry): nat { if SizeOf(e) <= 1_048_576 then SizeOf(e) else 0 }

  function TotalSize(entries: seq<TarEntry>): nat {
    if entries == [] then 0 else TotalSize(entries[..|entries| - 1]) + SizeOf(entries[|entries| - 1])
  }

  function TotalHeld(entries: seq<TarEntry>): nat {
    if entries == [] then 0 else TotalHeld(entries[..|entries| - 1]) + HeldOf(entries[|entries| - 1])
  }

  /** Which archives are accepted: sound ones of at most 20000 entries, 100 MiB, and 32 MiB of what is held. */
  predicate Acceptable(entries: seq<TarEntry>) {
    && (forall e <- entries :: Sound(e)) && |entries| <= 20_000
    && TotalSize(entries) <= 104_857_600 && TotalHeld(entries) <= 33_554_432
  }

  function FileOf(e: TarEntry): File
    requires Sound(e) && e.kind.Regular?
  {
    File(e.kind.size, if e.kind.size <= MAX_RETAINED_ENTRY then Some(e.kind.content) else None)
  }

  /** One more entry. */
  function Added(t: Repo, e: TarEntry): Repo
    requires Sound(e)
  {
    match e.kind
    case Directory => t.(dirs := t.dirs + {e.name} + Parents(e.name))
    case Regular(_, _) => Repo(t.files[e.name := FileOf(e)], t.dirs + Parents(e.name))
    case Special => t
  }

  /** The tree that a list of sound entries describes; a later file replaces an earlier one of the same name. */
  function Tree(entries: seq<TarEntry>): Repo
    requires forall e <- entries :: Sound(e)
  {
    if entries == [] then Repo(map[], {})
    else
      assert Sound(entries[|entries| - 1]);
      Added(Tree(entries[..|entries| - 1]), entries[|entries| - 1])
  }

  /** Every directory above a file or directory is a directory. */
  predicate Shaped(r: Repo) { Closed(r.dirs) && forall f <- r.files :: Parents(f) <= r.dirs }

  lemma ParentsClosed(p: Path)
    ensures forall q <- Parents(p) :: Parents(q) <= Parents(p)
  {
    forall q | q in Parents(p)
      ensures Parents(q) <= Parents(p)
    {
      forall s | s in Parents(q)
        ensures s in Parents(p)
      {
        var j :| 0 < j < |q| && s == q[..j];
        assert s == p[..j];
      }
    }
  }

  lemma {:induction false} TreeShaped(entries: seq<TarEntry>)
    requires forall e <- entries :: Sound(e)
    ensures Shaped(Tree(entries))
  {
    if entries != [] {
      assert entries[|entries| - 1] in entries;
      TreeShaped(entries[..|entries| - 1]);
      ParentsClosed(entries[|entries| - 1].name);
    }
  }

  /** A regular entry of this name, and no other after it. */
  ghost predicate LastOf(entries: seq<TarEntry>, p: Path, i: nat) {
    && i < |entries| && Sound(entries[i]) && entries[i].kind.Regular? && entries[i].name == p
    && forall j :: i < j < |entries| && Sound(entries[j]) && entries[j].kind.Regular? ==> entries[j].name != p
  }

  /** A path is a file iff some regular entry has its name. The last one counts, and its content is there iff it is at
      most a mebibyte. */
  lemma {:induction false} FileIsLastEntry(entries: seq<TarEntry>, p: Path)
    requires forall e <- entries :: Sound(e)
    ensures p in Tree(entries).files <==> exists i: nat :: LastOf(entries, p, i)
    ensures forall i: nat :: LastOf(entries, p, i) ==>
              && p in Tree(entries).files
              && var file, kind := Tree(entries).files[p], entries[i].kind;
                 file.size == kind.size && file.content == if kind.size <= 1_048_576 then Some(kind.content) else None
  {
    if entries != [] {
      var n := |entries| - 1;
      assert entries[n] in entries;
      FileIsLastEntry(entries[..n], p);
      if entries[n].kind.Regular? && entries[n].name == p {
        assert LastOf(entries, p, n);
        assert forall i: nat :: LastOf(entries, p, i) ==> i == n;
      } else {
        assert forall i: nat :: LastOf(entries, p, i) <==> LastOf(entries[..n], p, i);
      }
    }
  }

  /** The entry makes this path a directory. */
  predicate MakesDir(e: TarEntry, d: Path) {
    && Sound(e) && !e.kind.Special?
    && ((e.kind.Directory? && e.name == d) || (0 < |d| < |e.name| && e.name[..|d|] == d))
  }

  /** A path is a directory iff an entry says so or lies below it. */
  lemma {:induction false} DirIsImplied(entries: seq<TarEntry>, d: Path)
    requires forall e <- entries :: Sound(e)
    ensures d in Tree(entries).dirs <==> exists e <- entries :: MakesDir(e, d)
  {
    if entries != [] {
      var n := |entries| - 1;
      assert entries == entries[..n] + [entries[n]] && entries[n] in entries;
      DirIsImplied(entries[..n], d);
      assert d in Parents(entries[n].name) <==> 0 < |d| < |entries[n].name| && entries[n].name[..|d|] == d;
    }
  }

  lemma {:induction false} TotalsGrow(entries: seq<TarEntry>, i: nat)
    requires i <= |entries|
    ensures TotalSize(entries[..i]) <= TotalSize(entries) && TotalHeld(entries[..i]) <= TotalHeld(entries)
  {
    if i < |entries| {
      TotalsGrow(entries[..|entries| - 1], i);
      assert entries[..|entries| - 1][..i] == entries[..i];
    } else {
      assert entries[..i] == entries;
    }
  }

  lemma PrefixParts(entries: seq<TarEntry>, i: nat)
    requires i < |entries|
    ensures entries[..i + 1][..i] == entries[..i] && entries[..i + 1][i] == entries[i]
    ensures entries[..i + 1] == entries[..i] + [entries[i]]
  {
  }

  lemma PrefixTree(entries: seq<TarEntry>, i: nat)
    requires i < |entries| && (forall e <- entries[..i] :: Sound(e)) && Sound(entries[i])
    ensures forall e <- entries[..i + 1] :: Sound(e)
    ensures Tree(entries[..i + 1]) == Added(Tree(entries[..i]), entries[i]) && Shaped(Tree(entries[..i + 1]))
  {
    PrefixParts(entries, i);
    TreeShaped(entries[..i + 1]);
  }

  lemma PrefixStep(entries: seq<TarEntry>, i: nat)
    requires i < |entries| && forall e <- entries[..i] :: Sound(e)
    ensures TotalSize(entries[..i + 1]) == TotalSize(entries[..i]) + SizeOf(entries[i]) <= TotalSize(entries)
    ensures TotalHeld(entries[..i + 1]) == TotalHeld(entries[..i]) + HeldOf(entries[i]) <= TotalHeld(entries)
    ensures Sound(entries[i]) ==>
              && (forall e <- entries[..i + 1] :: Sound(e))
              && Tree(entries[..i + 1]) == Added(Tree(entries[..i]), entries[i]) && Shaped(Tree(entries[..i + 1]))
  {
    TotalsGrow(entries, i + 1);
    PrefixParts(entries, i);
    if Sound(entries[i]) {
      PrefixTree(entries, i);
    }
  }

  /** What is wrong with an entry that follows acceptable ones, in the order of the checks. */
  function ProblemWith(before: seq<TarEntry>, e: TarEntry): Option<Problem> {
    if e.Damaged? then Some(Unreadable)
    else if |before| + 1 > MAX_ENTRIES then Some(TooManyEntries)
    else if e.escapes then Some(Escaping)
    else if e.kind.Regular? && e.kind.size < 0 then Some(NegativeSize)
    else if TotalSize(before) + SizeOf(e) > MAX_EXTRACTED_TOTAL then Some(TooBig)
    else if TotalHeld(before) + HeldOf(e) > MAX_RETAINED_TOTAL then Some(TooMuchHeld)
    else None
  }

  /** extractTarGz: a refusal names what is wrong with the first entry that cannot be accepted. */
  method Extract(entries: seq<TarEntry>) returns (r: Result<Repo, Problem>)
    ensures r.Success? <==> Acceptable(entries)
    ensures r.Success? ==> r.value == Tree(entries)
    ensures r.Failure? ==> exists i :: 0 <= i < |entries| && Acceptable(entries[..i])
                                       && ProblemWith(entries[..i], entries[i]) == Some(r.error)
  {
    var files: map<Path, File>, dirs: set<Path> := map[], {};
    var total, held, count := 0, 0, 0;
    while count < |entries|
      invariant 0 <= count <= |entries| && count <= MAX_ENTRIES && forall e <- entries[..count] :: Sound(e)
      invariant Repo(files, dirs) == Tree(entries[..count]) && Closed(dirs)
      invariant total == TotalSize(entries[..count]) <= MAX_EXTRACTED_TOTAL
      invariant held == TotalHeld(entries[..count]) <= MAX_RETAINED_TOTAL
    {
      var e := entries[count];
      assert e in entries;
      assert Acceptable(entries[..count]);
      PrefixStep(entries, count);
      if e.Damaged? {
        return Failure(Unreadable);
      }
      if count + 1 > MAX_ENTRIES {
        return Failure(TooManyEntries);
      }
      if e.escapes {
        return Failure(Escaping);
      }
      match e.kind {
        case Directory =>
          dirs := MarkParentDirs(dirs + {e.name}, e.name);
        case Regular(size, content) =>
          if size < 0 {
            return Failure(NegativeSize);
          }
          total := total + size;
          if total > MAX_EXTRACTED_TOTAL {
            return Failure(TooBig);
          }
          if size <= MAX_RETAINED_ENTRY {
            held := held + size;
            if held > MAX_RETAINED_TOTAL {
              return Failure(TooMuchHeld);
            }
          }
          files := files[e.name := File(size, if size <= MAX_RETAINED_ENTRY then Some(content) else None)];
          dirs := MarkParentDirs(dirs, e.name);
        case Special =>
      }
      count := count + 1;
    }
    assert entries[..count] == entries;
    return Success(Repo(files, dirs));
  }

  // ---------- Memory ----------

  function Bytes(f: File): nat { if f.content.Some? then f.size else 0 }

  ghost function AnyPath(files: map<Path, File>): Path
    requires files != map[]
  {
    var p :| p in files; p
  }

  /** Content actually held. */
  ghost function Held(files: map<Path, File>): nat
    decreases |files|
  {
    if files == map[] then 0
    else
      var p := AnyPath(files);
      Bytes(files[p]) + Held(files - {p})
  }

  lemma {:induction false} HeldWithout(files: map<Path, File>, p: Path)
    requires p in files
    ensures Held(files) == Bytes(files[p]) + Held(files - {p})
    decreases |files|
  {
    var q := AnyPath(files);
    if p != q {
      HeldWithout(files - {q}, p);
      HeldWithout(files - {p}, q);
      assert files - {q} - {p} == files - {p} - {q};
    }
  }

  /** The tree of an accepted archive never holds more than the limit, even when names repeat. */
  lemma {:induction false} HeldBounded(entries: seq<TarEntry>)
    requires forall e <- entries :: Sound(e)
    ensures Held(Tree(entries).files) <= TotalHeld(entries)
  {
    if entries != [] {
      var e := entries[|entries| - 1];
      assert e in entries;
      var before := Tree(entries[..|entries| - 1]).files;
      HeldBounded(entries[..|entries| - 1]);
      if e.kind.Regular? {
        var after := before[e.name := FileOf(e)];
        HeldWithout(after, e.name);
        if e.name in before {
          HeldWithout(before, e.name);
          assert after - {e.name} == before - {e.name};
        } else {
          assert after - {e.name} == before;
        }
      }
    }
  }

  lemma AcceptedFitsInMemory(entries: seq<TarEntry>)
    requires Acceptable(entries)
    ensures Held(Tree(entries).files) <= MAX_RETAINED_TOTAL
  {
    HeldBounded(entries);
  }

  // ---------- The wrapper directory ----------

  function TopOf(p: Path): string { if p == [] then "." else p[0] }

  /** The top-level directories; an entry for the root itself counts as one called ".". */
  function Tops(r: Repo): set<string> {
    (set p <- r.files | |p| > 1 :: p[0]) + (set p <- r.dirs :: TopOf(p))
  }

  /** The paths below a top-level directory, without it. */
  function Under(paths: set<Path>, top: string): (r: set<Path>)
    ensures forall q :: q in r <==> q != [] && [top] + q in paths
  {
    var r := set p <- paths | |p| > 1 && p[0] == top :: p[1..];
    assert forall p <- paths :: |p| > 1 && p[0] == top ==> [top] + p[1..] == p;
    assert forall q: Path :: ([top] + q)[1..] == q;
    r
  }

  function Stripped(r: Repo, top: string): Repo {
    Repo(map q <- Under(r.files.Keys, top) :: r.files[[top] + q], Under(r.dirs, top))
  }

  method CollectTops(r: Repo) returns (tops: set<string>)
    ensures tops == Tops(r)
  {
    tops := {};
    var rest := r.files.Keys;
    while rest != {}
      invariant rest <= r.files.Keys && tops == set p <- r.files.Keys - rest | |p| > 1 :: p[0]
      decreases rest
    {
      var p :| p in rest;
      rest := rest - {p};
      if |p| > 1 {
        tops := tops + {p[0]};
      }
    }
    rest := r.dirs;
    ghost var fromFiles := tops;
    while rest != {}
      invariant rest <= r.dirs && tops == fromFiles + set p <- r.dirs - rest :: TopOf(p)
      decreases rest
    {
      var p :| p in rest;
      rest := rest - {p};
      var name := if p == [] then "." else p[0];
      assert name == TopOf(p);
      tops := tops + {name};
    }
  }

  method RemoveTop(r: Repo, top: string) returns (s: Repo)
    ensures s == Stripped(r, top)
  {
    var files: map<Path, File>, dirs: set<Path> := map[], {};
    var rest := r.files.Keys;
    while rest != {}
      invariant rest <= r.files.Keys && files.Keys == Under(r.files.Keys - rest, top)
      invariant forall q <- files :: [top] + q in r.files && files[q] == r.files[[top] + q]
      decreases rest
    {
      var p :| p in rest;
      rest := rest - {p};
      if |p| > 1 && p[0] == top {
        assert [top] + p[1..] == p;
        files := files[p[1..] := r.files[p]];
      }
    }
    rest := r.dirs;
    while rest != {}
      invariant rest <= r.dirs && dirs == Under(r.dirs - rest, top)
      decreases rest
    {
      var p :| p in rest;
      rest := rest - {p};
      if |p| > 1 && p[0] == top {
        assert [top] + p[1..] == p;
        dirs := dirs + {p[1..]};
      }
    }
    s := Repo(files, dirs);
    assert r.files.Keys - {} == r.files.Keys && r.dirs - {} == r.dirs;
  }

  /** The tree below a top-level directory: the same files and directories, one component shorter. */
  ghost predicate HoldsBelow(r: Repo, top: string, s: Repo) {
    && (forall q: Path :: q in s.files <==> q != [] && [top] + q in r.files)
    && (forall q: Path :: q in s.files ==> s.files[q] == r.files[[top] + q])
    && (forall q: Path :: q in s.dirs <==> q != [] && [top] + q in r.dirs)
  }

  /** stripTopLevelDir: archives without exactly one top-level directory are refused. */
  method StripTopLevelDir(r: Repo) returns (s: Result<Repo, Problem>)
    ensures s == (if exists top :: Tops(r) == {top} then Success(Stripped(r, TheOnly(Tops(r))))
                  else Failure(NoSingleTop))
    ensures s.Success? ==> exists top :: Tops(r) == {top} && HoldsBelow(r, top, s.value)
  {
    var tops := CollectTops(r);
    SingleIffSizeOne(tops);
    if |tops| != 1 {
      return Failure(NoSingleTop);
    }
    var top :| top in tops;
    assert tops == {top} by {
      var n :| tops == {n};
    }
    assert TheOnly(tops) == top;
    var stripped := RemoveTop(r, top);
    assert HoldsBelow(r, top, stripped);
    return Success(stripped);
  }

  ghost function TheOnly(names: set<string>): string
    requires exists n :: names == {n}
  {
    var n :| names == {n}; n
  }

  lemma SingleIffSizeOne(names: set<string>)
    ensures |names| == 1 <==> exists n :: names == {n}
  {
    if |names| == 1 {
      var n :| n in names;
      assert |names - {n}| == 0;
      assert names == {n};
    }
  }

  /** Stripping the wrapper keeps the tree in shape. */
  lemma StripKeepsShape(r: Repo, top: string)
    requires Shaped(r)
    ensures Shaped(Stripped(r, top))
  {
    var s := Stripped(r, top);
    forall p, q | p in s.files.Keys + s.dirs && q in Parents(p)
      ensures q in s.dirs
    {
      var k :| 0 < k < |p| && q == p[..k];
      assert [top] + q == ([top] + p)[..k + 1];
      assert [top] + q in Parents([top] + p);
    }
  }

  /** How codeload names the entries of a repository: below one directory. */
  function Wrap(e: TarEntry, top: string): TarEntry {
    if e.Damaged? then e else e.(name := [top] + e.name)
  }

  function Wrapped(entries: seq<TarEntry>, top: string): (r: seq<TarEntry>)
    ensures |r| == |entries| && forall i :: 0 <= i < |r| ==> r[i] == Wrap(entries[i], top)
  {
    seq(|entries|, i requires 0 <= i < |entries| => Wrap(entries[i], top))
  }

  lemma ParentsBelow(p: Path, top: string)
    requires p != []
    ensures Under(Parents([top] + p), top) == Parents(p) && [top] in Parents([top] + p)
    ensures forall q <- Parents([top] + p) :: q[0] == top
  {
    var w := [top] + p;
    assert w[..1] == [top];
    forall q: Path
      ensures q in Under(Parents(w), top) <==> q in Parents(p)
    {
      if q in Parents(p) {
        assert [top] + q == w[..|q| + 1];
      }
      if q in Under(Parents(w), top) {
        var k :| 0 < k < |w| && [top] + q == w[..k];
        assert q == ([top] + q)[1..] == p[..k - 1];
      }
    }
  }

  /** The entry puts something into the tree. */
  predicate Placed(e: TarEntry) { e.TarEntry? && !e.kind.Special? }

  lemma BelowIs(top: string, q: Path, n: Path)
    ensures [top] + q == [top] + n <==> q == n
  {
    assert ([top] + q)[1..] == q && ([top] + n)[1..] == n;
  }

  lemma StripAddedDirs(dirs: set<Path>, n: Path, top: string)
    requires n != []
    ensures Under(dirs + Parents([top] + n), top) == Under(dirs, top) + Parents(n)
    ensures Under(dirs + {[top] + n}, top) == Under(dirs, top) + {n}
  {
    ParentsBelow(n, top);
    forall q: Path
      ensures q in Under(dirs + Parents([top] + n), top) <==> q in Under(dirs, top) + Parents(n)
      ensures q in Under(dirs + {[top] + n}, top) <==> q in Under(dirs, top) + {n}
    {
      BelowIs(top, q, n);
      assert q in Under(Parents([top] + n), top) <==> q in Parents(n);
    }
  }

  lemma StripAddedFile(r: Repo, n: Path, file: File, top: string)
    requires n != []
    ensures Stripped(r.(files := r.files[[top] + n := file]), top).files == Stripped(r, top).files[n := file]
  {
    var a, b := Stripped(r.(files := r.files[[top] + n := file]), top).files, Stripped(r, top).files[n := file];
    forall q: Path
      ensures (q in a <==> q in b) && (q in a ==> a[q] == b[q])
    {
      BelowIs(top, q, n);
    }
  }

  /** Adding a wrapped entry and stripping is adding the entry. */
  lemma StripAdded(t: Repo, e: TarEntry, top: string)
    requires Sound(e) && e.name != []
    ensures Stripped(Added(t, Wrap(e, top)), top) == Added(Stripped(t, top), e)
  {
    StripAddedDirs(t.dirs, e.name, top);
    StripAddedDirs(t.dirs + {[top] + e.name}, e.name, top);
    if e.kind.Regular? {
      StripAddedFile(t, e.name, FileOf(e), top);
    }
  }

  lemma WrappedSound(entries: seq<TarEntry>, top: string)
    requires forall e <- entries :: Sound(e)
    ensures forall e <- Wrapped(entries, top) :: Sound(e)
  {
    var w := Wrapped(entries, top);
    assert forall i :: 0 <= i < |w| ==> w[i] == Wrap(entries[i], top) && entries[i] in entries;
  }

  lemma {:induction false} WrappedTree(entries: seq<TarEntry>, top: string)
    requires forall e <- entries :: Sound(e) && e.name != []
    requires forall e <- Wrapped(entries, top) :: Sound(e)
    ensures Stripped(Tree(Wrapped(entries, top)), top) == Tree(entries)
  {
    if entries != [] {
      var n, w := |entries| - 1, Wrapped(entries, top);
      assert entries[n] in entries && w[..n] == Wrapped(entries[..n], top) && w[n] == Wrap(entries[n], top);
      WrappedTree(entries[..n], top);
      StripAdded(Tree(w[..n]), entries[n], top);
    }
  }

  predicate AnyPlaced(entries: seq<TarEntry>) { exists i :: 0 <= i < |entries| && Placed(entries[i]) }

  lemma LastPlaced(entries: seq<TarEntry>)
    requires entries != []
    ensures var n := |entries| - 1; AnyPlaced(entries) <==> AnyPlaced(entries[..n]) || Placed(entries[n])
  {
    var n := |entries| - 1;
    if i :| 0 <= i < n && Placed(entries[i]) {
      assert Placed(entries[..n][i]);
    }
  }

  lemma {:induction false} WrappedTops(entries: seq<TarEntry>, top: string)
    requires forall e <- entries :: Sound(e) && e.name != []
    requires forall e <- Wrapped(entries, top) :: Sound(e)
    ensures Tops(Tree(Wrapped(entries, top))) == if AnyPlaced(entries) then {top} else {}
  {
    if entries != [] {
      var n, w := |entries| - 1, Wrapped(entries, top);
      assert entries[n] in entries && w[..n] == Wrapped(entries[..n], top) && w[n] == Wrap(entries[n], top);
      WrappedTops(entries[..n], top);
      TopsAdded(Tree(w[..n]), entries[n], top);
      LastPlaced(entries);
    }
  }

  lemma TopsAdded(t: Repo, e: TarEntry, top: string)
    requires Sound(e) && e.name != []
    ensures Tops(Added(t, Wrap(e, top))) == Tops(t) + if e.kind.Special? then {} else {top}
  {
    ParentsBelow(e.name, top);
    var w, after := [top] + e.name, Added(t, Wrap(e, top));
    forall n: string
      ensures n in Tops(after) <==> n in Tops(t) || (!e.kind.Special? && n == top)
    {
      if n in Tops(t) {
        if p :| p in t.files && |p| > 1 && p[0] == n {
          assert p in after.files;
        } else {
          var p :| p in t.dirs && TopOf(p) == n;
          assert p in after.dirs;
        }
      }
      if !e.kind.Special? {
        assert [top] in after.dirs && TopOf([top]) == top;
      }
    }
  }

  /** Stripping undoes the wrapping: what is read below the one top-level directory is the repository itself. */
  lemma WrapThenStrip(entries: seq<TarEntry>, top: string)
    requires forall e <- entries :: Sound(e) && e.name != []
    requires AnyPlaced(entries)
    ensures forall e <- Wrapped(entries, top) :: Sound(e)
    ensures Tops(Tree(Wrapped(entries, top))) == {top}
    ensures Stripped(Tree(Wrapped(entries, top)), top) == Tree(entries)
  {
    WrappedSound(entries, top);
    WrappedTree(entries, top);
    WrappedTops(entries, top);
  }

  // ---------- Listing ----------

  datatype DirEntry = DirEntry(name: string, isDir: bool)

  function DirectChild(parent: Path, child: Path): Option<string> {
    if |child| == |parent| + 1 && parent <= child then Some(child[|parent|]) else None
  }

  /** The list names exactly these names, each once. */
  predicate Once(list: seq<DirEntry>, seen: set<string>) {
    && (forall i, j :: 0 <= i < j < |list| ==> list[i].name != list[j].name)
    && seen == set e <- list :: e.name
  }

  /** One of the two listing loops: adds the direct children among some paths that are not seen yet. */
  method AddChildren(paths: set<Path>, parent: Path, isDir: bool, seen0: set<string>, list0: seq<DirEntry>)
    returns (seen: set<string>, list: seq<DirEntry>)
    requires Once(list0, seen0)
    ensures Once(list, seen) && seen0 <= seen && forall n :: n in seen <==> n in seen0 || parent + [n] in paths
    ensures list0 <= list && forall e <- list[|list0|..] :: e.isDir == isDir && e.name !in seen0
  {
    seen, list := seen0, list0;
    var rest := paths;
    while rest != {}
      invariant rest <= paths && seen0 <= seen
      invariant forall n :: n in seen <==> n in seen0 || parent + [n] in paths - rest
      invariant Once(list, seen)
      invariant list0 <= list && forall e <- list[|list0|..] :: e.isDir == isDir && e.name !in seen0
      decreases rest
    {
      var p :| p in rest;
      rest := rest - {p};
      var name := DirectChild(parent, p);
      assert name.Some? ==> p == parent + [name.value];
      if name.Some? && name.value !in seen {
        seen, list := seen + {name.value}, list + [DirEntry(name.value, isDir)];
      }
    }
  }

  /** ReadDir: each direct child once, in any order. A path that is both a file and a directory counts as a file. */
  method ReadDir(r: Repo, parent: Path) returns (entries: Option<seq<DirEntry>>)
    ensures entries.Some? <==> parent == [] || parent in r.dirs
    ensures entries.Some? ==>
              && (forall i, j :: 0 <= i < j < |entries.value| ==> entries.value[i].name != entries.value[j].name)
              && (forall n :: DirEntry(n, false) in entries.value <==> parent + [n] in r.files)
              && (forall n :: DirEntry(n, true) in entries.value <==>
                  parent + [n] in r.dirs && parent + [n] !in r.files)
  {
    if parent != [] && parent !in r.dirs {
      return None;
    }
    var files, first := AddChildren(r.files.Keys, parent, false, {}, []);
    var seen, list := AddChildren(r.dirs, parent, true, files, first);
    assert list == first + list[|first|..] && first[0..] == first;
    assert forall n <- seen :: if n in files then DirEntry(n, false) in list else DirEntry(n, true) in list;
    return Some(list);
  }
}
