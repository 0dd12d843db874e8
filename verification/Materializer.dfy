/** The init container that materialises integrations: directory swaps over an unreliable file system. */
module Materializer {
  import opened Wrappers
  import opened RepositoryEntries
  import opened Disk

  /** How a step ended. A crash stops the whole program; a raised exception can be caught. */
  datatype Outcome = Done | Raised | Crashed

  datatype Ending = ExitZero | ExitOne | Killed

  /** The integrations of the mounted list; none when it cannot be read. */
  function Listed(listing: Option<seq<Entry>>): seq<Entry> {
    if listing.Some? then Integrations(listing.value) else []
  }

  /** The mounted list is the one that the pod was started for. */
  predicate Expected(listing: Option<seq<Entry>>, expected: string, hash: string -> string) {
    expected != "" && listing.Some? && hash(Fingerprint(Listed(listing))) == expected
  }

  /** No target is a name that mkdtemp could draw for a staging directory. */
  predicate NoneDrawable(entries: seq<Entry>) { forall e <- entries :: !StagedName(e.target) }

  /** Every failed placement is of a target with an entry that cannot be placed. */
  predicate Blamed(problems: seq<Problem>, entries: seq<Entry>, contents: seq<Option<Tree>>)
    requires |entries| == |contents|
  {
    forall p <- problems :: p.PlaceFailed? ==>
      exists i :: 0 <= i < |entries| && entries[i].target == p.target && !(Safe(p.target) && Placeable(contents[i]))
  }

  lemma BlamedStill(first: seq<Problem>, more: seq<Problem>, entries: seq<Entry>, contents: seq<Option<Tree>>)
    requires |entries| == |contents| && forall p <- more :: !p.PlaceFailed?
    ensures Blamed(first + more, entries, contents) <==> Blamed(first, entries, contents)
  {
    forall p | p in first + more && p.PlaceFailed?
      ensures p in first
    {
    }
    assert forall p <- first :: p in first + more;
  }

  /** A name that stays inside the directory. */
  predicate Inside(target: string) { target != "" && target != "." && target != ".." && '/' !in target }

  predicate SafeOwned(state: Ownership) { forall t <- OwnedTargets(state) :: Safe(t) }

  /** What an exit code of zero stands for. */
  predicate CleanExit(before: Volume, after: Volume, listing: Option<seq<Entry>>, contents: seq<Option<Tree>>,
                      expected: string, hash: string -> string)
    requires |contents| == |Listed(listing)|
  {
    && Expected(listing, expected, hash)
    && AllPlaceable(Listed(listing), contents)
    && after == Completed(before, Listed(listing), contents)
  }

  class InitContainer {
    var files: Files
    var state: Ownership
    var log: Option<string>
    /** Steps so far that failed although they could have worked. */
    ghost var faults: nat

    constructor (files: Files, state: Ownership)
      ensures this.files == files && this.state == state && log == None
    {
      this.files, this.state, log, faults := files, state, None, 0;
    }

    /** The step counts as a fault unless it worked or could not. */
    twostate predicate Counted(o: Outcome, possible: bool)
      reads this
    {
      faults == old(faults) + if o == Done || (o == Raised && !possible) then 0 else 1
    }

    method Count(o: Outcome, possible: bool)
      modifies this`faults
      ensures Counted(o, possible)
    {
      if o == Crashed || (o == Raised && possible) {
        faults := faults + 1;
      }
    }

    function Contents(): Volume
      reads this
    {
      Volume(files, state)
    }

    // ---------- File system steps ----------

    /** remove_path: recursive removal is not atomic. */
    method Remove(name: string) returns (o: Outcome)
      modifies this`files, this`faults
      ensures || files == old(files) - {name}
              || (o != Done && files == old(files))
              || (o != Done && name in old(files) && files == old(files)[name := Partial])
      ensures Counted(o, true)
    {
      var gone, started: bool;
      o, gone, started := *, *, *;
      if o == Done || gone {
        files := files - {name};
      } else if name in files && started {
        files := files[name := Partial];
      }
      Count(o, true);
    }

    /** os.replace of a directory: atomic, and refused when the new name is taken. */
    method Rename(from: string, to: string) returns (o: Outcome)
      modifies this`files, this`faults
      ensures || (o != Done && files == old(files))
              || (o != Raised && from in old(files) && to !in old(files)
                  && files == old(files)[to := old(files)[from]] - {from})
      ensures Counted(o, from in old(files) && to !in old(files))
    {
      var moved: bool;
      o, moved := *, *;
      var possible := from in files && to !in files;
      if !possible {
        o := if o == Done then Raised else o;
      } else if o == Done || (o == Crashed && moved) {
        files := files[to := files[from]] - {from};
      }
      Count(o, possible);
    }

    /** shutil.copytree: not atomic, and refused when the destination exists. */
    method CopyTree(tree: Tree, to: string) returns (o: Outcome)
      modifies this`files, this`faults
      ensures || (o != Done && files == old(files))
              || (o != Done && to !in old(files) && files == old(files)[to := Partial])
              || (to !in old(files) && files == old(files)[to := Whole(tree)])
      ensures Counted(o, to !in old(files))
    {
      var complete, started: bool;
      o, complete, started := *, *, *;
      var possible := to !in files;
      if !possible {
        o := if o == Done then Raised else o;
      } else if o == Done || complete {
        files := files[to := Whole(tree)];
      } else if started {
        files := files[to := Partial];
      }
      Count(o, possible);
    }

    /** tempfile.mkdtemp beside the destination: an unused staging name, or an exception. */
    method MakeStaging() returns (o: Outcome, staged: string)
      modifies this`files, this`faults
      ensures || (o != Done && files == old(files))
              || (o != Raised && StagedName(staged) && staged !in old(files)
                  && files == old(files)[staged := Whole(map[])])
      ensures Counted(o, true)
    {
      var made: bool;
      o, staged, made := *, *, *;
      if !StagedName(staged) || staged in files {
        o := if o == Done then Raised else o;
      } else if o == Done || (o == Crashed && made) {
        files := files[staged := Whole(map[])];
      }
      Count(o, true);
    }

    /** Work that does not touch the directory: downloads and temporary files elsewhere. */
    method Elsewhere() returns (o: Outcome)
      modifies this`faults
      ensures Counted(o, true)
    {
      o := *;
      Count(o, true);
    }

    // ---------- One integration ----------

    method RecoverBackup(target: string) returns (o: Outcome)
      modifies this`files, this`faults
      ensures Framed(old(files), files, {target, Backup(target)})
      ensures Logical(files, target) == Logical(old(files), target)
      ensures o == Done ==> files == Recovered(old(files), target)
      ensures Counted(o, true) && (target in old(files) ==> target in files)
    {
      BackupNames(target, target);
      if Backup(target) !in files {
        return Done;
      }
      if target in files {
        o := Remove(Backup(target));
      } else {
        o := Rename(Backup(target), target);
      }
    }

    /** The try block of fetch_and_place: stage, move the old tree aside, move the new one in. */
    method Swap(target: string, staged: string, tree: Tree) returns (o: Outcome)
      requires StagedName(staged) && staged !in files && Backup(target) !in files
      modifies this`files, this`faults
      ensures Framed(old(files) - {staged}, files - {staged}, {target, Backup(target)})
      ensures NothingLeft(old(files), files, {target, Backup(target), staged})
      ensures staged != target ==>
                || Logical(files, target) == Logical(old(files), target)
                || (MANIFEST in tree && Logical(files, target) == Some(Whole(tree)))
      ensures o == Done ==> staged != target && MANIFEST in tree && files == old(files)[target := Whole(tree)]
      ensures faults >= old(faults) && (faults == old(faults) ==> o != Crashed)
      ensures faults == old(faults) && staged != target ==> (o == Done <==> MANIFEST in tree)
      ensures o == Raised && faults <= old(faults) + 1 && target in old(files) ==> target in files
    {
      BackupNames(target, target);
      o := CopyTree(tree, staged);
      if o != Done {
        return;
      }
      if MANIFEST !in tree {
        return Raised;
      }
      o := MoveIn(target, staged);
    }

    /** Move the old tree aside, move the staged one in, drop the old one. */
    method MoveIn(target: string, staged: string) returns (o: Outcome)
      requires StagedName(staged) && staged in files && Backup(target) !in files
      modifies this`files, this`faults
      ensures Framed(old(files) - {staged}, files - {staged}, {target, Backup(target)})
      ensures NothingLeft(old(files), files, {target, Backup(target), staged})
      ensures staged != target ==>
                || Logical(files, target) == Logical(old(files), target)
                || Logical(files, target) == Some(old(files)[staged])
      ensures o == Done ==> staged != target && files == old(files)[target := old(files)[staged]] - {staged}
      ensures faults >= old(faults) && (faults == old(faults) ==> o != Crashed)
      ensures faults == old(faults) && staged != target ==> o == Done
      ensures o == Raised && faults <= old(faults) + 1 && target in old(files) && staged != target ==> target in files
    {
      BackupNames(target, target);
      var hadDest := target in files;
      if hadDest {
        o := Rename(target, Backup(target));
        if o != Done {
          return;
        }
      }
      o := Rename(staged, target);
      if o == Raised {
        o := PutBack(target, hadDest);
        return;
      }
      if o == Done {
        o := Remove(Backup(target));
      }
    }

    /** The inner except block: undo the move aside, then raise again. */
    method PutBack(target: string, hadDest: bool) returns (o: Outcome)
      requires target !in files
      modifies this`files, this`faults
      ensures o != Done
      ensures files == old(files) || files == Recovered(old(files), target)
      ensures faults >= old(faults)
      ensures faults == old(faults) ==> o == Raised && (hadDest ==> files == Recovered(old(files), target))
    {
      BackupNames(target, target);
      o := Remove(target);
      if o == Done && hadDest && Backup(target) in files {
        o := Rename(Backup(target), target);
      }
      if o == Done {
        o := Raised;
      }
    }

    method FetchAndPlace(target: string, content: Option<Tree>) returns (o: Outcome)
      modifies this`files, this`faults
      ensures faults == old(faults) ==> NothingLeft(old(files), files, {target, Backup(target)})
      ensures Attempted(old(files), files, target, content)
      ensures o == Done ==> Safe(target) && Placeable(content) && files == Placed(old(files), target, content.value)
      ensures !Inside(target) ==> o == Raised && files == old(files)
      ensures faults >= old(faults)
      ensures faults == old(faults) && !StagedName(target) ==>
                o == if Inside(target) && Placeable(content) then Done else Raised
      ensures faults == old(faults) ==> o != Crashed
      ensures o == Raised && faults <= old(faults) + 1 && target in old(files) ==> target in files
    {
      BackupNames(target, target);
      if !Safe(target) {
        return Raised;
      }
      o := RecoverBackup(target);
      if o != Done {
        return;
      }
      o := Elsewhere();
      if o != Done || content.None? {
        o := if o == Done then Raised else o;
        return;
      }
      o := Stage(target, content.value);
      if o == Done {
        o := Elsewhere();
      }
    }

    /** From mkdtemp to the end of the finally block. */
    method Stage(target: string, tree: Tree) returns (o: Outcome)
      requires Backup(target) !in files
      modifies this`files, this`faults
      ensures faults == old(faults) ==> NothingLeft(old(files), files, {target, Backup(target)})
      ensures Attempted(old(files), files, target, Some(tree))
      ensures o == Done ==> MANIFEST in tree && files == old(files)[target := Whole(tree)]
      ensures faults >= old(faults) && (faults == old(faults) ==> o != Crashed)
      ensures faults == old(faults) && !StagedName(target) ==> (o == Done <==> MANIFEST in tree)
      ensures o == Raised && faults <= old(faults) + 1 && target in old(files) ==> target in files
    {
      BackupNames(target, target);
      var staged;
      o, staged := MakeStaging();
      if o == Done {
        o := Remove(staged);
        if o == Done {
          o := SwapAndClean(target, staged, tree);
        }
      }
    }

    /** The try statement and its finally block. */
    method SwapAndClean(target: string, staged: string, tree: Tree) returns (o: Outcome)
      requires StagedName(staged) && staged !in files && Backup(target) !in files
      modifies this`files, this`faults
      ensures Framed(old(files), files, {target, Backup(target)})
      ensures faults == old(faults) ==> NothingLeft(old(files), files, {target, Backup(target)})
      ensures staged != target ==>
                || Logical(files, target) == Logical(old(files), target)
                || (MANIFEST in tree && Logical(files, target) == Some(Whole(tree)))
      ensures o == Done ==> MANIFEST in tree && files == old(files)[target := Whole(tree)]
      ensures faults >= old(faults) && (faults == old(faults) ==> o != Crashed)
      ensures faults == old(faults) && staged != target ==> (o == Done <==> MANIFEST in tree)
      ensures o == Raised && faults <= old(faults) + 1 && target in old(files) ==> target in files
    {
      BackupNames(target, target);
      o := Swap(target, staged, tree);
      if o != Crashed {
        var cleanup := Remove(staged);
        o := if cleanup == Done then o else cleanup;
      }
    }

    method RemoveOwnedTarget(target: string) returns (o: Outcome)
      modifies this`files, this`faults
      ensures Framed(old(files), files, {target, Backup(target)})
      ensures faults == old(faults) ==> files.Keys <= old(files).Keys
      ensures o == Done ==> files == old(files) - {target, Backup(target)}
      ensures !Inside(target) ==> o == Raised && files == old(files)
      ensures faults >= old(faults) && (faults == old(faults) ==> o == if Inside(target) then Done else Raised)
    {
      BackupNames(target, target);
      if !Safe(target) {
        return Raised;
      }
      o := RecoverBackup(target);
      if o == Done {
        o := Remove(target);
      }
      if o == Done {
        o := Remove(Backup(target));
      }
    }

    // ---------- The whole run ----------

    /** The mounted list, or nothing when it cannot be read, narrowed to the integrations once its hash matches. */
    method LoadEntries(listing: Option<seq<Entry>>, expected: string, hash: string -> string)
      returns (entries: Option<seq<Entry>>)
      ensures entries.Some? <==> Expected(listing, expected, hash)
      ensures entries.Some? ==> entries.value == Integrations(listing.value)
    {
      if expected == "" || listing.None? {
        return None;
      }
      var integrations := Integrations(listing.value);
      var fingerprint := PythonFingerprint(integrations);
      return if hash(fingerprint) == expected then Some(integrations) else None;
    }

    /** One entry of the list, as part of the run that started from start. */
    method PlaceEntry(entries: seq<Entry>, contents: seq<Option<Tree>>, i: nat,
                      ghost start: Files, ghost complete: bool, ghost placed: set<string>)
      returns (o: Outcome)
      requires i < |entries| == |contents|
      requires Progress(start, files, entries, contents)
      requires complete ==> PlacedFirst(start, files, entries, contents, placed, i)
      requires forall t <- placed :: Apart(t, Targets(entries)) ==> HoldsNew(files, entries, contents, t)
      modifies this`files, this`faults
      ensures Progress(start, files, entries, contents) && entries[i].target in Targets(entries)
      ensures faults == old(faults) ==> NothingLeft(old(files), files, Slots(Targets(entries)))
      ensures o == Done && complete ==>
                PlacedFirst(start, files, entries, contents, placed + {entries[i].target}, i + 1)
      ensures forall t <- placed + (if o == Done then {entries[i].target} else {}) ::
                Apart(t, Targets(entries)) ==> HoldsNew(files, entries, contents, t)
      ensures faults >= old(faults)
      ensures faults == old(faults) ==> o != Crashed
      ensures faults == old(faults) && !StagedName(entries[i].target) ==>
                o == if Safe(entries[i].target) && Placeable(contents[i]) then Done else Raised
    {
      assert entries[i] in entries;
      o := FetchAndPlace(entries[i].target, contents[i]);
      AttemptKeepsListed(start, old(files), files, entries, contents, i);
      forall t | t in placed && Apart(t, Targets(entries))
        ensures HoldsNew(files, entries, contents, t)
      {
        AttemptKeepsNew(old(files), files, entries, contents, i, t);
      }
      if o == Done && complete {
        PlacedOneMore(start, old(files), files, entries, contents, placed, i);
      }
    }

    /** Place every listed integration, collecting problems. Ends early only by a crash. */
    method PlaceListed(entries: seq<Entry>, contents: seq<Option<Tree>>)
      returns (crashed: bool, placed: set<string>, problems: seq<Problem>)
      requires |entries| == |contents|
      modifies this`files, this`faults
      ensures Progress(old(files), files, entries, contents)
      ensures faults == old(faults) ==> NothingLeft(old(files), files, Slots(Targets(entries)))
      ensures placed <= Targets(entries)
      ensures !crashed ==> forall t: string :: t in placed <==> PlacedOnce(entries, problems, t)
      ensures forall t <- placed :: Apart(t, Targets(entries)) ==> HoldsNew(files, entries, contents, t)
      ensures faults == old(faults) && NoneDrawable(entries) ==> Blamed(problems, entries, contents)
      ensures forall p <- problems :: p.PlaceFailed?
      ensures !crashed && problems == [] ==> PlacedFirst(old(files), files, entries, contents, placed, |entries|)
      ensures faults >= old(faults)
      ensures faults == old(faults) ==>
              !crashed && (AllPlaceable(entries, contents) && NoneDrawable(entries) ==> problems == [])
    {
      crashed, placed, problems := false, {}, [];
      ProgressStarts(files, entries, contents);
      var i := 0;
      while i < |entries|
        invariant 0 <= i <= |entries|
        invariant Progress(old(files), files, entries, contents)
        invariant faults == old(faults) ==> NothingLeft(old(files), files, Slots(Targets(entries)))
        invariant placed <= Targets(entries)
        invariant forall p <- problems :: p.PlaceFailed?
        invariant Accounted(entries, problems, placed, i)
        invariant forall t <- placed :: Apart(t, Targets(entries)) ==> HoldsNew(files, entries, contents, t)
        invariant faults == old(faults) && NoneDrawable(entries) ==> Blamed(problems, entries, contents)
        invariant problems == [] ==> PlacedFirst(old(files), files, entries, contents, placed, i)
        invariant faults >= old(faults)
        invariant faults == old(faults) && AllPlaceable(entries, contents) && NoneDrawable(entries) ==> problems == []
      {
        var o := PlaceEntry(entries, contents, i, old(files), problems == [], placed);
        AccountedOneMore(entries, problems, placed, i);
        if o == Done {
          placed := placed + {entries[i].target};
        } else if o == Raised {
          problems := problems + [PlaceFailed(entries[i].target)];
        } else {
          crashed := true;
          return;
        }
        i := i + 1;
      }
      assert entries[..i] == entries;
    }

    /** One unlisted target, as part of the removals that started from start. */
    method RemoveOne(target: string, gone: set<string>, absent: set<string>, ghost start: Files,
                     ghost done: set<string>)
      returns (o: Outcome)
      requires target in gone && target !in absent && Framed(start, files, Slots(gone))
      requires forall t <- absent :: Apart(t, gone) ==> t !in files && Backup(t) !in files
      modifies this`files, this`faults
      ensures Framed(start, files, Slots(gone)) && (faults == old(faults) ==> files.Keys <= old(files).Keys)
      ensures forall t <- absent :: Apart(t, gone) ==> t !in files && Backup(t) !in files
      ensures o == Done ==> target !in files && Backup(target) !in files
      ensures o == Done && old(files) == start - Slots(done) ==> files == start - Slots(done + {target})
      ensures faults >= old(faults) && (faults == old(faults) ==> o == if Safe(target) then Done else Raised)
    {
      BackupNames(target, target);
      o := RemoveOwnedTarget(target);
      forall t | t in absent && Apart(t, gone)
        ensures t !in files && Backup(t) !in files
      {
        OtherKept(old(files), files, t, target);
      }
      FramedChain(start, old(files), files, {target, Backup(target)}, Slots(gone));
      assert Slots(done + {target}) == Slots(done) + {target, Backup(target)};
    }

    /** Remove the owned targets that are no longer listed, in any order. */
    method RemoveUnlisted(gone: set<string>, known: set<string>)
      returns (crashed: bool, owned: set<string>, problems: seq<Problem>)
      requires gone <= known
      modifies this`files, this`faults
      ensures Framed(old(files), files, Slots(gone)) && (faults == old(faults) ==> files.Keys <= old(files).Keys)
      ensures known - gone <= owned <= known
      ensures forall t <- known - owned :: Apart(t, gone) ==> t !in files && Backup(t) !in files
      ensures forall p <- problems :: p.RemoveFailed?
      ensures !crashed ==> forall t <- gone :: t in owned <==> RemoveFailed(t) in problems
      ensures !crashed && problems == [] ==> files == old(files) - Slots(gone) && owned == known - gone
      ensures faults >= old(faults)
      ensures faults == old(faults) ==> !crashed && ((forall t <- gone :: Safe(t)) ==> problems == [])
    {
      crashed, owned, problems := false, known, [];
      var todo := gone;
      assert Slots({}) == {};
      while todo != {}
        invariant todo <= gone && known - gone <= owned <= known && todo <= owned
        invariant Framed(old(files), files, Slots(gone))
        invariant faults == old(faults) ==> files.Keys <= old(files).Keys
        invariant forall t <- known - owned :: Apart(t, gone) ==> t !in files && Backup(t) !in files
        invariant forall p <- problems :: p.RemoveFailed? && p.target in gone - todo
        invariant forall t <- gone - todo :: t in owned <==> RemoveFailed(t) in problems
        invariant problems == [] ==> files == old(files) - Slots(gone - todo) && owned == known - (gone - todo)
        invariant faults >= old(faults)
        invariant faults == old(faults) && (forall t <- gone :: Safe(t)) ==> problems == []
        decreases todo
      {
        var target :| target in todo;
        var o := RemoveOne(target, gone, known - owned, old(files), gone - todo);
        assert gone - (todo - {target}) == gone - todo + {target};
        todo := todo - {target};
        if o == Done {
          owned := owned - {target};
        } else if o == Raised {
          problems := problems + [RemoveFailed(target)];
        } else {
          crashed := true;
          return;
        }
      }
      assert gone - todo == gone;
    }

    /** The ownership file is written beside its final name and renamed over it. */
    method SaveOwnedTargets(targets: set<string>) returns (o: Outcome)
      modifies this`state, this`faults
      ensures state == Owned(targets) || (o != Done && state == old(state))
      ensures Counted(o, true)
    {
      var saved: bool;
      o, saved := *, *;
      if o == Done || (o == Crashed && saved) {
        state := Owned(targets);
      }
      Count(o, true);
    }

    method WriteLog(message: string) returns (o: Outcome)
      modifies this`log, this`faults
      ensures o == Done ==> log == Some(message)
      ensures Counted(o, true)
    {
      var text: Option<string>;
      o, text := *, *;
      log := if o == Done then Some(message) else text;
      Count(o, true);
    }

    /** The part of main after the placing loop: nothing is removed unless every placement succeeded. */
    method Finish(listed: set<string>, known: set<string>, failed: bool)
      returns (crashed: bool, problems: seq<Problem>)
      modifies this`files, this`state, this`faults
      ensures Framed(old(files), files, Slots(known - listed))
      ensures faults == old(faults) ==> files.Keys <= old(files).Keys
      ensures failed ==> files == old(files)
      ensures || state == old(state)
              || (state.Owned? && known * listed <= state.targets <= known
                  && forall t <- known - state.targets ::
                       Apart(t, known - listed) ==> t !in files && Backup(t) !in files)
      ensures forall p <- problems :: p.RemoveFailed? || p == SaveFailed
      ensures !crashed && SaveFailed !in problems ==>
                state == Owned(Retained(known, listed, failed, problems))
      ensures !crashed && problems == [] && !failed ==>
                files == old(files) - Slots(known - listed) && state == Owned(known * listed)
      ensures faults >= old(faults)
      ensures faults == old(faults) ==> !crashed && ((forall t <- known - listed :: Safe(t)) ==> problems == [])
    {
      var owned := known;
      crashed, problems := false, [];
      if !failed {
        crashed, owned, problems := RemoveUnlisted(known - listed, known);
      }
      if !crashed {
        assert known - (known - listed) == known * listed;
        var o := SaveOwnedTargets(owned);
        crashed := o == Crashed;
        if o == Raised {
          problems := problems + [SaveFailed];
        }
      }
    }

    /** The part of main that runs once the list and the ownership set are read. */
    method Sync(entries: seq<Entry>, contents: seq<Option<Tree>>)
      returns (crashed: bool, problems: seq<Problem>)
      requires |entries| == |contents| && state != Invalid
      modifies this`files, this`state, this`faults
      ensures Kept(old(Contents()), Contents(), entries, contents)
      ensures faults == old(faults) ==> NothingLeft(old(files), files, Slots(Targets(entries)))
      ensures PlacingFailed(problems) ==> Framed(old(files), files, Slots(Targets(entries)))
      ensures LoadFailed !in problems
      ensures !crashed && SaveFailed !in problems ==> Saved(old(state), state, entries, problems)
      ensures !crashed ==> PlacedHold(files, entries, contents, problems, OwnedTargets(old(state)))
      ensures faults == old(faults) ==> !crashed
      ensures faults == old(faults) && NoneDrawable(entries) ==> Blamed(problems, entries, contents)
      ensures !crashed && problems == [] ==>
                AllPlaceable(entries, contents) && Contents() == Completed(old(Contents()), entries, contents)
      ensures faults >= old(faults)
      ensures faults == old(faults) && AllPlaceable(entries, contents) && NoneDrawable(entries)
              && SafeOwned(old(state)) ==>
                !crashed && problems == []
    {
      var placed, more;
      ghost var start := Contents();
      crashed, placed, problems := PlaceListed(entries, contents);
      ghost var middle := files;
      RunKept(start, middle, Contents(), entries, contents);
      if !crashed {
        crashed, more := Finish(Targets(entries), OwnedTargets(state) + placed, problems != []);
        assert OwnedTargets(start.state) + placed - Targets(entries) == OwnedTargets(start.state) - Targets(entries);
        RunKept(start, middle, Contents(), entries, contents);
        RunSaved(start.state, entries, problems, more, placed);
        RunKeepsNew(middle, files, entries, contents, problems, more, placed, OwnedTargets(start.state));
        BlamedStill(problems, more, entries, contents);
        if problems == [] && more == [] && !crashed {
          RunCompleted(start, middle, Contents(), entries, contents, placed);
        }
        problems := problems + more;
      }
    }

    /** main: the exit code and the termination message are all that the operator sees of a run. */
    method Run(listing: Option<seq<Entry>>, contents: seq<Option<Tree>>, expected: string, hash: string -> string)
      returns (ending: Ending, problems: seq<Problem>)
      requires |contents| == |Listed(listing)|
      modifies this
      ensures Kept(old(Contents()), Contents(), Listed(listing), contents)
      ensures faults == old(faults) ==> NothingLeft(old(files), files, Slots(Targets(Listed(listing))))
      ensures PlacingFailed(problems) ==> Framed(old(files), files, Slots(Targets(Listed(listing))))
      ensures LoadFailed in problems <==> !Expected(listing, expected, hash) || old(state) == Invalid
      ensures LoadFailed in problems ==> Contents() == old(Contents())
      ensures ending != Killed && LoadFailed !in problems && SaveFailed !in problems ==>
                Saved(old(state), state, Listed(listing), problems)
      ensures ending != Killed && LoadFailed !in problems ==>
                PlacedHold(files, Listed(listing), contents, problems, OwnedTargets(old(state)))
      ensures ending == ExitZero ==> problems == []
      ensures faults == old(faults) ==> ending == if problems == [] then ExitZero else ExitOne
      ensures faults == old(faults) && NoneDrawable(Listed(listing)) ==> Blamed(problems, Listed(listing), contents)
      ensures ending == ExitZero ==>
                CleanExit(old(Contents()), Contents(), listing, contents, expected, hash) && log == Some(expected)
      ensures faults >= old(faults)
      ensures faults == old(faults) && old(state) != Invalid && SafeOwned(old(state))
              && Expected(listing, expected, hash) && AllPlaceable(Listed(listing), contents)
              && NoneDrawable(Listed(listing)) ==>
                ending == ExitZero
    {
      problems := [];
      var crashed := false;
      var entries := LoadEntries(listing, expected, hash);
      if entries.None? || state == Invalid {
        problems := [LoadFailed];
      } else {
        crashed, problems := Sync(entries.value, contents);
      }
      if crashed {
        return Killed, problems;
      }
      var o := WriteLog(if problems == [] then expected else "errors");
      ending := if o == Crashed then Killed else if o == Done && problems == [] then ExitZero else ExitOne;
    }
  }
}
