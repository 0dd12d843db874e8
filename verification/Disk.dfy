/** The custom_components directory as the init container sees it, and the relations its steps keep. */
module Disk {
  import opened Wrappers
  import opened RepositoryEntries

  /** File contents by relative path. */
  type Tree = map<string, string>

  /** A directory entry: a complete tree, or what an interrupted copy or removal left behind. */
  datatype Node = Whole(tree: Tree) | Partial

  type Files = map<string, Node>

  /** The saved ownership set. Invalid stands for a file that does not parse. */
  datatype Ownership = Absent | Invalid | Owned(targets: set<string>)

  datatype Volume = Volume(files: Files, state: Ownership)

  /** What one run reports. */
  datatype Problem =
    | LoadFailed
    | PlaceFailed(target: string)
    | RemoveFailed(target: string)
    | SaveFailed

  const STAGING := ".community-repository-"
  const BACKUP := ".community-repository-backup-"
  const MANIFEST := "manifest.json"

  function Backup(target: string): string { BACKUP + target }

  /** The characters of mkdtemp's eight random ones. */
  predicate StagingChar(c: char) { 'a' <= c <= 'z' || '0' <= c <= '9' || c == '_' }

  /** Names mkdtemp can return; none of them is a backup name. */
  predicate StagedName(name: string) {
    && STAGING <= name && |name| == |STAGING| + 8
    && forall i :: |STAGING| <= i < |name| ==> StagingChar(name[i])
  }

  /** A target that mkdtemp cannot draw and whose backup no other target is, nor the other way round. */
  predicate Apart(target: string, others: set<string>) {
    !StagedName(target) && forall u <- others :: u != Backup(target) && target != Backup(u)
  }

  /** The check made before a target becomes a path component. */
  predicate Safe(target: string) { target != "" && '/' !in target && target != "." && target != ".." }

  predicate Placeable(content: Option<Tree>) { content.Some? && MANIFEST in content.value }

  /** What Home Assistant should find at a target: the destination or else its backup. */
  function Logical(files: Files, target: string): Option<Node> {
    if target in files then Some(files[target])
    else if Backup(target) in files then Some(files[Backup(target)])
    else None
  }

  function Slots(targets: set<string>): set<string> { targets + (set t <- targets :: Backup(t)) }

  /** Everything outside slots is as before, apart from staging directories left over by a crash. */
  predicate Framed(before: Files, after: Files, slots: set<string>) {
    && (forall n <- before :: n !in slots ==> n in after && after[n] == before[n])
    && (forall n <- after :: n !in before ==> n in slots || StagedName(n))
  }

  /** No staging directory is left behind. */
  predicate NothingLeft(before: Files, after: Files, slots: set<string>) {
    after.Keys <= before.Keys + slots
  }

  /** One attempt to place content at a target, wherever it stops. Only a target that could be drawn as its own
      staging name, because nothing is there, may end up incomplete. */
  predicate Attempted(before: Files, after: Files, target: string, content: Option<Tree>) {
    && Framed(before, after, {target, Backup(target)})
    && (!StagedName(target) || Logical(before, target).Some? ==>
          || Logical(after, target) == Logical(before, target)
          || (Placeable(content) && Logical(after, target) == Some(Whole(content.value))))
  }

  /** The directory after backup recovery for one target. */
  function Recovered(files: Files, target: string): Files {
    (if target !in files && Backup(target) in files then files[target := files[Backup(target)]] else files)
    - {Backup(target)}
  }

  function Placed(files: Files, target: string, tree: Tree): Files {
    files[target := Whole(tree)] - {Backup(target)}
  }

  // ---------- A whole run of the init container ----------

  function Targets(entries: seq<Entry>): set<string> { set e <- entries :: e.target }

  function OwnedTargets(state: Ownership): set<string> { if state.Owned? then state.targets else {} }

  /** Every entry's content placed in list order. */
  function PlaceAll(files: Files, entries: seq<Entry>, contents: seq<Option<Tree>>): Files
    requires |entries| == |contents|
  {
    if entries == [] then files
    else
      var k := |entries| - 1;
      var earlier := PlaceAll(files, entries[..k], contents[..k]);
      if contents[k].Some? then Placed(earlier, entries[k].target, contents[k].value) else earlier
  }

  predicate AllPlaceable(entries: seq<Entry>, contents: seq<Option<Tree>>)
    requires |entries| == |contents|
  {
    forall i :: 0 <= i < |entries| ==> Safe(entries[i].target) && Placeable(contents[i])
  }

  /** What a target may hold after a run that stopped somewhere. */
  predicate MayHold(before: Files, entries: seq<Entry>, contents: seq<Option<Tree>>, target: string, held: Option<Node>)
    requires |entries| == |contents|
  {
    || held == Logical(before, target)
    || exists i :: 0 <= i < |entries| && entries[i].target == target && Placeable(contents[i])
                   && held == Some(Whole(contents[i].value))
  }

  /** What every run keeps, however it ends: files outside the listed and owned targets are untouched; and of the
      targets apart from all others each listed one holds what it held or a complete new tree, and each owned one is
      forgotten only once it is gone. */
  predicate Kept(before: Volume, after: Volume, entries: seq<Entry>, contents: seq<Option<Tree>>)
    requires |entries| == |contents|
  {
    var known := Targets(entries) + OwnedTargets(before.state);
    && Framed(before.files, after.files, Slots(known))
    && (forall t <- Targets(entries) :: Apart(t, known) ==>
          MayHold(before.files, entries, contents, t, Logical(after.files, t)))
    && (forall t <- OwnedTargets(before.state) :: Apart(t, known) ==>
          t in OwnedTargets(after.state) || (t !in after.files && Backup(t) !in after.files))
    && OwnedTargets(after.state) <= known
  }

  /** The volume a run leaves when the init container exits with zero. */
  function Completed(before: Volume, entries: seq<Entry>, contents: seq<Option<Tree>>): Volume
    requires |entries| == |contents|
  {
    Volume(PlaceAll(before.files, entries, contents) - Slots(OwnedTargets(before.state) - Targets(entries)),
           Owned(Targets(entries)))
  }

  /** How many entries have the target, and how many of them the run reports as not placed. */
  function Listings(entries: seq<Entry>, target: string): nat {
    if entries == [] then 0
    else
      var k := |entries| - 1;
      Listings(entries[..k], target) + if entries[k].target == target then 1 else 0
  }

  function Failures(problems: seq<Problem>, target: string): nat { multiset(problems)[PlaceFailed(target)] }

  /** Some entry of the target was placed. */
  predicate PlacedOnce(entries: seq<Entry>, problems: seq<Problem>, target: string) {
    Failures(problems, target) < Listings(entries, target)
  }

  predicate PlacingFailed(problems: seq<Problem>) { exists p <- problems :: p.PlaceFailed? }

  /** Of the known targets the listed ones and those not removed. */
  ghost function Retained(known: set<string>, listed: set<string>, failed: bool, problems: seq<Problem>): set<string> {
    set t <- known | t in listed || failed || RemoveFailed(t) in problems
  }

  /** What a run saves that nobody stopped and whose saving worked: of the targets it owned or placed the listed
      ones, those it failed to remove, and after a failed placement all. */
  ghost predicate Saved(before: Ownership, after: Ownership, entries: seq<Entry>, problems: seq<Problem>) {
    && after.Owned?
    && forall t: string :: t in after.targets <==>
         && (t in OwnedTargets(before) || PlacedOnce(entries, problems, t))
         && (t in Targets(entries) || RemoveFailed(t) in problems || PlacingFailed(problems))
  }

  /** What was placed apart from other targets holds what one of its entries asks for. */
  ghost predicate PlacedHold(now: Files, entries: seq<Entry>, contents: seq<Option<Tree>>, problems: seq<Problem>,
                             owned: set<string>)
    requires |entries| == |contents|
  {
    forall t: string :: PlacedOnce(entries, problems, t) && Apart(t, Targets(entries) + owned) ==>
      HoldsNew(now, entries, contents, t)
  }

  /** The target holds what one of its entries asks for. */
  predicate HoldsNew(now: Files, entries: seq<Entry>, contents: seq<Option<Tree>>, target: string)
    requires |entries| == |contents|
  {
    exists i :: 0 <= i < |entries| && entries[i].target == target && Placeable(contents[i])
                && Logical(now, target) == Some(Whole(contents[i].value))
  }

  // ---------- Name separation ----------

  lemma BackupNames(t: string, u: string)
    ensures t != Backup(t) && !StagedName(Backup(t))
    ensures Backup(t) == Backup(u) ==> t == u
  {
    assert Backup(t)[|STAGING| + 6] == BACKUP[|STAGING| + 6] == '-';
    assert Backup(t)[|BACKUP|..] == t && Backup(u)[|BACKUP|..] == u;
  }

  lemma SlotsApart(t: string, targets: set<string>)
    requires t !in targets && Apart(t, targets)
    ensures t !in Slots(targets) && Backup(t) !in Slots(targets)
  {
    forall u | u in targets
      ensures Backup(t) != Backup(u)
    {
      BackupNames(t, u);
    }
  }

  // ---------- Steps of a run ----------

  lemma FramedChain(a: Files, b: Files, c: Files, inner: set<string>, outer: set<string>)
    requires Framed(a, b, outer) && Framed(b, c, inner) && inner <= outer
    ensures Framed(a, c, outer)
  {
  }

  /** The listed targets while a run is under way. */
  predicate Progress(start: Files, now: Files, entries: seq<Entry>, contents: seq<Option<Tree>>)
    requires |entries| == |contents|
  {
    && Framed(start, now, Slots(Targets(entries)))
    && forall t <- Targets(entries) :: Apart(t, Targets(entries)) ==>
         MayHold(start, entries, contents, t, Logical(now, t))
  }

  /** The first i entries all placed. */
  predicate PlacedFirst(start: Files, now: Files, entries: seq<Entry>, contents: seq<Option<Tree>>,
                        added: set<string>, i: nat)
    requires i <= |entries| == |contents|
  {
    && AllPlaceable(entries[..i], contents[..i])
    && now == PlaceAll(start, entries[..i], contents[..i])
    && added == Targets(entries[..i])
  }

  lemma ProgressStarts(start: Files, entries: seq<Entry>, contents: seq<Option<Tree>>)
    requires |entries| == |contents|
    ensures Progress(start, start, entries, contents) && PlacedFirst(start, start, entries, contents, {}, 0)
  {
  }

  lemma PlacedOneMore(start: Files, before: Files, now: Files, entries: seq<Entry>, contents: seq<Option<Tree>>,
                      added: set<string>, i: nat)
    requires i < |entries| == |contents| && PlacedFirst(start, before, entries, contents, added, i)
    requires Safe(entries[i].target) && Placeable(contents[i])
    requires now == Placed(before, entries[i].target, contents[i].value)
    ensures PlacedFirst(start, now, entries, contents, added + {entries[i].target}, i + 1)
  {
    PlaceAllStep(start, entries, contents, i);
  }

  lemma PlaceAllStep(files: Files, entries: seq<Entry>, contents: seq<Option<Tree>>, i: nat)
    requires i < |entries| == |contents| && contents[i].Some?
    ensures PlaceAll(files, entries[..i + 1], contents[..i + 1])
         == Placed(PlaceAll(files, entries[..i], contents[..i]), entries[i].target, contents[i].value)
    ensures Targets(entries[..i + 1]) == Targets(entries[..i]) + {entries[i].target}
  {
    var es, cs := entries[..i + 1], contents[..i + 1];
    assert es[..i] == entries[..i] && cs[..i] == contents[..i] && es[i] == entries[i];
    assert es == entries[..i] + [entries[i]];
  }

  /** One more attempt keeps what a run promises about the listed targets. */
  lemma AttemptKeepsListed(start: Files, before: Files, after: Files,
                           entries: seq<Entry>, contents: seq<Option<Tree>>, i: nat)
    requires i < |entries| == |contents|
    requires Attempted(before, after, entries[i].target, contents[i])
    requires Progress(start, before, entries, contents)
    ensures Progress(start, after, entries, contents)
  {
    var target := entries[i].target;
    assert target in Targets(entries);
    FramedChain(start, before, after, {target, Backup(target)}, Slots(Targets(entries)));
    forall t | t in Targets(entries) && Apart(t, Targets(entries))
      ensures MayHold(start, entries, contents, t, Logical(after, t))
    {
      if t != target {
        OtherKept(before, after, t, target);
      }
    }
  }

  /** Of the first i entries those that were placed and those that were reported. */
  ghost predicate Accounted(entries: seq<Entry>, problems: seq<Problem>, placed: set<string>, i: nat)
    requires i <= |entries|
  {
    forall t: string :: Failures(problems, t) <= Listings(entries[..i], t)
                        && (t in placed <==> Failures(problems, t) < Listings(entries[..i], t))
  }

  lemma AccountedOneMore(entries: seq<Entry>, problems: seq<Problem>, placed: set<string>, i: nat)
    requires i < |entries| && Accounted(entries, problems, placed, i)
    ensures Accounted(entries, problems, placed + {entries[i].target}, i + 1)
    ensures Accounted(entries, problems + [PlaceFailed(entries[i].target)], placed, i + 1)
  {
    var e, more := entries[i].target, problems + [PlaceFailed(entries[i].target)];
    forall t: string
      ensures Listings(entries[..i + 1], t) == Listings(entries[..i], t) + if t == e then 1 else 0
      ensures Failures(more, t) == Failures(problems, t) + if t == e then 1 else 0
    {
      assert entries[..i + 1][..i] == entries[..i];
      assert multiset(more) == multiset(problems) + multiset{PlaceFailed(e)};
    }
  }

  /** What was placed stays placed through further attempts. */
  lemma AttemptKeepsNew(before: Files, after: Files, entries: seq<Entry>, contents: seq<Option<Tree>>, i: nat,
                        t: string)
    requires i < |entries| == |contents| && Attempted(before, after, entries[i].target, contents[i])
    requires Apart(t, Targets(entries)) && HoldsNew(before, entries, contents, t)
    ensures HoldsNew(after, entries, contents, t)
  {
    var target := entries[i].target;
    assert target in Targets(entries);
    if t != target {
      OtherKept(before, after, t, target);
    }
  }

  /** Nor do the removals touch it. */
  lemma RemovalsKeepNew(before: Files, after: Files, entries: seq<Entry>, contents: seq<Option<Tree>>,
                        gone: set<string>, t: string)
    requires |entries| == |contents| && Framed(before, after, Slots(gone)) && t !in gone && Apart(t, gone)
    requires HoldsNew(before, entries, contents, t)
    ensures HoldsNew(after, entries, contents, t)
  {
    SlotsApart(t, gone);
    BackupNames(t, t);
    assert Logical(after, t) == Logical(before, t);
  }

  /** A step at one target leaves the logical content of one apart from it. */
  lemma OtherKept(before: Files, after: Files, t: string, target: string)
    requires Framed(before, after, {target, Backup(target)}) && t != target && Apart(t, {target})
    ensures Logical(after, t) == Logical(before, t)
    ensures t !in before && Backup(t) !in before ==> t !in after && Backup(t) !in after
  {
    BackupNames(t, target);
  }

  /** Placing, then removing, then saving keeps what every run keeps, stopped anywhere. */
  lemma RunKept(start: Volume, middle: Files, now: Volume, entries: seq<Entry>, contents: seq<Option<Tree>>)
    requires |entries| == |contents|
    requires Progress(start.files, middle, entries, contents)
    requires Framed(middle, now.files, Slots(OwnedTargets(start.state) - Targets(entries)))
    requires forall t <- OwnedTargets(start.state) - OwnedTargets(now.state) ::
               Apart(t, Targets(entries) + OwnedTargets(start.state)) ==> t !in now.files && Backup(t) !in now.files
    requires OwnedTargets(now.state) <= OwnedTargets(start.state) + Targets(entries)
    ensures Kept(start, now, entries, contents)
  {
    var listed, owned := Targets(entries), OwnedTargets(start.state);
    forall t | t in listed && Apart(t, listed + owned)
      ensures MayHold(start.files, entries, contents, t, Logical(now.files, t))
    {
      assert Apart(t, listed) && Apart(t, owned - listed);
      SlotsApart(t, owned - listed);
      BackupNames(t, t);
      assert Logical(now.files, t) == Logical(middle, t);
    }
  }

  /** The problems of the placements, then those of the rest. */
  lemma RunSaved(before: Ownership, entries: seq<Entry>, first: seq<Problem>, more: seq<Problem>, placed: set<string>)
    requires forall p <- first :: p.PlaceFailed?
    requires forall p <- more :: p.RemoveFailed? || p == SaveFailed
    requires forall t: string :: t in placed <==> PlacedOnce(entries, first, t)
    ensures Saved(before, Owned(Retained(OwnedTargets(before) + placed, Targets(entries), first != [], more)),
                  entries, first + more)
    ensures PlacingFailed(first + more) <==> first != []
  {
    forall t: string
      ensures t in placed <==> PlacedOnce(entries, first + more, t)
    {
      SameFailures(first, more, t);
    }
    if first != [] {
      assert first[0] in first + more;
    }
  }

  lemma SameFailures(first: seq<Problem>, more: seq<Problem>, t: string)
    requires forall p <- more :: !p.PlaceFailed?
    ensures Failures(first + more, t) == Failures(first, t)
  {
    assert multiset(first + more) == multiset(first) + multiset(more) && PlaceFailed(t) !in more;
  }

  /** What was placed is there after the removals. */
  lemma RunKeepsNew(middle: Files, now: Files, entries: seq<Entry>, contents: seq<Option<Tree>>,
                    first: seq<Problem>, more: seq<Problem>, placed: set<string>, owned: set<string>)
    requires |entries| == |contents| && placed <= Targets(entries)
    requires forall p <- more :: !p.PlaceFailed?
    requires forall t: string :: t in placed <==> PlacedOnce(entries, first, t)
    requires Framed(middle, now, Slots(owned - Targets(entries)))
    requires forall t <- placed :: Apart(t, Targets(entries)) ==> HoldsNew(middle, entries, contents, t)
    ensures PlacedHold(now, entries, contents, first + more, owned)
  {
    forall t: string | PlacedOnce(entries, first + more, t) && Apart(t, Targets(entries) + owned)
      ensures HoldsNew(now, entries, contents, t)
    {
      SameFailures(first, more, t);
      assert Apart(t, Targets(entries));
      RemovalsKeepNew(middle, now, entries, contents, owned - Targets(entries), t);
    }
  }

  lemma RunCompleted(start: Volume, middle: Files, now: Volume, entries: seq<Entry>, contents: seq<Option<Tree>>,
                     placed: set<string>)
    requires |entries| == |contents| && PlacedFirst(start.files, middle, entries, contents, placed, |entries|)
    requires var known := OwnedTargets(start.state) + placed;
             && now.files == middle - Slots(known - Targets(entries))
             && now.state == Owned(known * Targets(entries))
    ensures AllPlaceable(entries, contents) && now == Completed(start, entries, contents)
  {
    assert entries[..|entries|] == entries && contents[..|entries|] == contents;
    var owned, listed := OwnedTargets(start.state), Targets(entries);
    assert owned + listed - listed == owned - listed;
    assert (owned + listed) * listed == listed;
  }
}
