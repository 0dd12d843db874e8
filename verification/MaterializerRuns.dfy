/** What the init container guarantees over every sequence of interrupted and completed runs. */
module MaterializerRuns {
  import opened Wrappers
  import opened RepositoryEntries
  import opened Disk

  // ---------- One integration: crashes and recovery ----------

  /** Attempts at one target, each stopped anywhere. */
  ghost predicate Attempts(states: seq<Files>, target: string, contents: seq<Option<Tree>>) {
    && |states| == |contents| + 1
    && forall i :: 0 <= i < |contents| ==> Attempted(states[i], states[i + 1], target, contents[i])
  }

  /** The complete trees a target may hold after some attempts. */
  ghost predicate OldOrNew(before: Files, target: string, contents: seq<Option<Tree>>, held: Option<Node>) {
    || held == Logical(before, target)
    || exists i :: 0 <= i < |contents| && Placeable(contents[i]) && held == Some(Whole(contents[i].value))
  }

  lemma {:induction false} AttemptsKeep(states: seq<Files>, target: string, contents: seq<Option<Tree>>)
    requires Attempts(states, target, contents)
    ensures Framed(states[0], states[|contents|], {target, Backup(target)})
    ensures !StagedName(target) || Logical(states[0], target).Some? ==>
              OldOrNew(states[0], target, contents, Logical(states[|contents|], target))
  {
    if contents != [] {
      var k := |contents| - 1;
      AttemptsKeep(states[..k + 1], target, contents[..k]);
      FramedChain(states[0], states[k], states[k + 1], {target, Backup(target)}, {target, Backup(target)});
      assert forall i :: 0 <= i < k ==> contents[..k][i] == contents[i];
    }
  }

  /** Backup recovery left the destination itself as the complete old tree or a complete new one, and present if it
      existed. */
  ghost predicate Atomic(before: Files, after: Files, target: string, contents: seq<Option<Tree>>) {
    && OldOrNew(before, target, contents, if target in after then Some(after[target]) else None)
    && Backup(target) !in after
    && (Logical(before, target).Some? ==> target in after)
    && (Logical(before, target).Some? && Logical(before, target).value.Whole? ==> after[target].Whole?)
  }

  /** From any crash point of any number of attempts recovery is atomic, unless mkdtemp could draw the target's own
      name, which needs that nothing is there. */
  lemma RecoveryIsAtomic(states: seq<Files>, target: string, contents: seq<Option<Tree>>)
    requires Attempts(states, target, contents)
    ensures var after := Recovered(states[|contents|], target);
            && Backup(target) !in after
            && (!StagedName(target) || Logical(states[0], target).Some? ==> Atomic(states[0], after, target, contents))
  {
    AttemptsKeep(states, target, contents);
    BackupNames(target, target);
  }

  /** In that case an attempt that stops while copying leaves an incomplete tree at the target. */
  lemma DrawnTargetMayTear(before: Files, target: string, tree: Tree)
    requires StagedName(target) && Logical(before, target).None?
    ensures var states := [before, before[target := Partial]];
            && Attempts(states, target, [Some(tree)])
            && !Atomic(before, Recovered(states[1], target), target, [Some(tree)])
  {
    BackupNames(target, target);
    assert Recovered(before[target := Partial], target)[target] == Partial;
  }

  /** Crashed attempts leave nothing but staging directories behind once one attempt completes. */
  lemma CrashesThenSuccess(states: seq<Files>, target: string, contents: seq<Option<Tree>>, tree: Tree)
    requires Attempts(states, target, contents)
    ensures var crashed, direct := Placed(states[|contents|], target, tree), Placed(states[0], target, tree);
            && (forall n <- direct :: n in crashed && crashed[n] == direct[n])
            && (forall n <- crashed :: n !in direct ==> StagedName(n))
  {
    AttemptsKeep(states, target, contents);
    BackupNames(target, target);
  }

  // ---------- A completed run ----------

  /** The content that the last entry for a target asks for. */
  function LastContent(entries: seq<Entry>, contents: seq<Option<Tree>>, target: string): Option<Tree>
    requires |entries| == |contents|
  {
    if entries == [] then None
    else
      var k := |entries| - 1;
      if entries[k].target == target then contents[k] else LastContent(entries[..k], contents[..k], target)
  }

  /** After the last entry for t comes one whose backup is named t. */
  ghost predicate HiddenLater(entries: seq<Entry>, t: string) {
    exists i :: 0 <= i < |entries| && Backup(entries[i].target) == t
                && forall j :: i < j < |entries| ==> entries[j].target != t
  }

  /** What one path holds after the listed contents have been placed. */
  ghost predicate HoldsAt(before: Files, after: Files, entries: seq<Entry>, contents: seq<Option<Tree>>, n: string)
    requires |entries| == |contents|
  {
    if n in Targets(entries) then
      && LastContent(entries, contents, n).Some? && (n in after <==> !HiddenLater(entries, n))
      && (n in after ==> after[n] == Whole(LastContent(entries, contents, n).value))
    else if n in Slots(Targets(entries)) then n !in after
    else (n in after <==> n in before) && (n in after ==> after[n] == before[n])
  }

  lemma HiddenStep(entries: seq<Entry>, e: Entry, n: string)
    ensures HiddenLater(entries + [e], n) <==>
            e.target != n && (Backup(e.target) == n || HiddenLater(entries, n))
  {
    var es := entries + [e];
    BackupNames(e.target, e.target);
    if HiddenLater(es, n) {
      var i :| 0 <= i < |es| && Backup(es[i].target) == n && forall j :: i < j < |es| ==> es[j].target != n;
      if i < |entries| {
        assert es[|entries|].target != n && Backup(entries[i].target) == n;
        assert forall j :: i < j < |entries| ==> entries[j].target == es[j].target;
      }
    }
    if e.target != n && HiddenLater(entries, n) {
      var i :| 0 <= i < |entries| && Backup(entries[i].target) == n
               && forall j :: i < j < |entries| ==> entries[j].target != n;
      assert Backup(es[i].target) == n && forall j :: i < j < |es| ==> es[j].target != n;
    }
    if e.target != n && Backup(e.target) == n {
      assert Backup(es[|entries|].target) == n;
    }
  }

  lemma OneMorePlaced(before: Files, earlier: Files, entries: seq<Entry>, contents: seq<Option<Tree>>,
                      e: Entry, tree: Tree, n: string)
    requires |entries| == |contents| && HoldsAt(before, earlier, entries, contents, n)
    ensures HoldsAt(before, Placed(earlier, e.target, tree), entries + [e], contents + [Some(tree)], n)
  {
    var t := e.target;
    var es, cs := entries + [e], contents + [Some(tree)];
    assert es[..|entries|] == entries && cs[..|entries|] == contents && es[|entries|] == e && e in es;
    assert Targets(es) == Targets(entries) + {t};
    assert Slots(Targets(es)) == Slots(Targets(entries)) + {t, Backup(t)};
    BackupNames(t, t);
    HiddenStep(entries, e, n);
  }

  lemma {:induction false} PlaceAllHolds(files: Files, entries: seq<Entry>, contents: seq<Option<Tree>>, n: string)
    requires |entries| == |contents| && AllPlaceable(entries, contents)
    ensures HoldsAt(files, PlaceAll(files, entries, contents), entries, contents, n)
  {
    if entries != [] {
      var k := |entries| - 1;
      var es, cs, e := entries[..k], contents[..k], entries[k];
      assert entries == es + [e] && contents == cs + [contents[k]] && e in entries;
      PlaceAllHolds(files, es, cs, n);
      OneMorePlaced(files, PlaceAll(files, es, cs), es, cs, e, contents[k].value, n);
    }
  }

  /** What a zero exit means, path by path. */
  ghost predicate Acknowledged(before: Volume, after: Volume, entries: seq<Entry>, contents: seq<Option<Tree>>)
    requires |entries| == |contents|
  {
    && after.state == Owned(Targets(entries))
    && (forall t <- Targets(entries) ::
          && LastContent(entries, contents, t).Some? && Backup(t) !in after.files
          && t in after.files && after.files[t] == Whole(LastContent(entries, contents, t).value))
    && (forall t <- OwnedTargets(before.state) - Targets(entries) :: t !in after.files && Backup(t) !in after.files)
    && (forall n :: n !in Slots(Targets(entries) + OwnedTargets(before.state)) ==>
          (n in after.files <==> n in before.files) && (n in after.files ==> after.files[n] == before.files[n]))
  }

  /** No listed target is the backup of a listed or owned one. */
  predicate Separate(listed: set<string>, owned: set<string>) {
    forall t <- listed, u <- listed + owned :: t != Backup(u)
  }

  /** A listed integration is in place after a complete run iff no later entry and no removal took it for a backup. */
  lemma ListedUnlessHidden(before: Volume, entries: seq<Entry>, contents: seq<Option<Tree>>, t: string)
    requires |entries| == |contents| && AllPlaceable(entries, contents) && t in Targets(entries)
    ensures var gone, after := OwnedTargets(before.state) - Targets(entries),
                               Completed(before, entries, contents).files;
            && (t in after <==> !HiddenLater(entries, t) && forall u <- gone :: t != Backup(u))
            && LastContent(entries, contents, t).Some?
            && (t in after ==> after[t] == Whole(LastContent(entries, contents, t).value))
  {
    PlaceAllHolds(before.files, entries, contents, t);
  }

  /** An unlisted path is in place after a complete run iff it was, and is neither owned nor a backup. */
  lemma UnlistedUnlessKnown(before: Volume, entries: seq<Entry>, contents: seq<Option<Tree>>, n: string)
    requires |entries| == |contents| && AllPlaceable(entries, contents) && n !in Targets(entries)
    ensures var after := Completed(before, entries, contents).files;
            && (n in after <==> n in before.files && n !in Slots(Targets(entries) + OwnedTargets(before.state)))
            && (n in after ==> after[n] == before.files[n])
  {
    var listed, owned := Targets(entries), OwnedTargets(before.state);
    PlaceAllHolds(before.files, entries, contents, n);
    assert n in Slots(listed + owned) <==> n in Slots(listed) || n in Slots(owned - listed);
  }

  /** The complete run is what its zero exit promises exactly when no listed target is named like a backup. */
  lemma Acknowledgement(before: Volume, entries: seq<Entry>, contents: seq<Option<Tree>>)
    requires |entries| == |contents| && AllPlaceable(entries, contents)
    ensures Acknowledged(before, Completed(before, entries, contents), entries, contents)
            <==> Separate(Targets(entries), OwnedTargets(before.state))
  {
    var listed, owned := Targets(entries), OwnedTargets(before.state);
    var after := Completed(before, entries, contents);
    if Acknowledged(before, after, entries, contents) {
      forall t, u | t in listed && u in listed + owned
        ensures t != Backup(u)
      {
        assert u in listed || u in owned - listed;
      }
    }
    if Separate(listed, owned) {
      SeparateAcknowledged(before, entries, contents);
    }
  }

  lemma SeparateAcknowledged(before: Volume, entries: seq<Entry>, contents: seq<Option<Tree>>)
    requires |entries| == |contents| && AllPlaceable(entries, contents)
    requires Separate(Targets(entries), OwnedTargets(before.state))
    ensures Acknowledged(before, Completed(before, entries, contents), entries, contents)
  {
    var listed, owned := Targets(entries), OwnedTargets(before.state);
    var after := Completed(before, entries, contents);
    forall t | t in listed
      ensures && LastContent(entries, contents, t).Some? && Backup(t) !in after.files
              && t in after.files && after.files[t] == Whole(LastContent(entries, contents, t).value)
    {
      ListedUnlessHidden(before, entries, contents, t);
      assert forall i :: 0 <= i < |entries| ==> entries[i] in entries && entries[i].target in listed;
      UnlistedUnlessKnown(before, entries, contents, Backup(t));
    }
    forall n | n !in Slots(listed + owned)
      ensures (n in after.files <==> n in before.files) && (n in after.files ==> after.files[n] == before.files[n])
    {
      UnlistedUnlessKnown(before, entries, contents, n);
    }
  }

  /** Running again with the same list and the same content changes nothing, exactly when no removal took away a
      listed integration as a backup. */
  lemma CompletedTwice(before: Volume, entries: seq<Entry>, contents: seq<Option<Tree>>)
    requires |entries| == |contents| && AllPlaceable(entries, contents)
    ensures var once := Completed(before, entries, contents);
            Completed(once, entries, contents) == once <==>
              forall t <- Targets(entries), u <- OwnedTargets(before.state) - Targets(entries) ::
                t == Backup(u) ==> HiddenLater(entries, t)
  {
    var listed, gone := Targets(entries), OwnedTargets(before.state) - Targets(entries);
    var once := Completed(before, entries, contents);
    var twice := Completed(once, entries, contents);
    assert OwnedTargets(once.state) - listed == {};
    forall n: string
      ensures n !in listed ==> (n in twice.files <==> n in once.files)
      ensures n in listed ==> (n in twice.files <==> !HiddenLater(entries, n))
      ensures n in listed ==> (n in once.files <==> !HiddenLater(entries, n) && forall u <- gone :: n != Backup(u))
      ensures n in once.files && n in twice.files ==> twice.files[n] == once.files[n]
    {
      if n in listed {
        ListedUnlessHidden(before, entries, contents, n);
        ListedUnlessHidden(once, entries, contents, n);
      } else {
        UnlistedUnlessKnown(before, entries, contents, n);
        UnlistedUnlessKnown(once, entries, contents, n);
        assert n in Slots(listed) ==> n in Slots(listed + OwnedTargets(before.state));
      }
    }
  }

  /** An integration placed by a run that stopped before saving its ownership is not in the ownership set. A later
      complete run that no longer lists it removes it exactly when the set had recorded it, or as a backup. */
  lemma UnlistedRemovedIffOwned(before: Volume, entries: seq<Entry>, contents: seq<Option<Tree>>, target: string)
    requires |entries| == |contents| && AllPlaceable(entries, contents)
    requires target !in Targets(entries) && target in before.files
    ensures target !in Completed(before, entries, contents).files <==>
            || target in OwnedTargets(before.state)
            || exists u <- Targets(entries) + OwnedTargets(before.state) :: target == Backup(u)
  {
    UnlistedUnlessKnown(before, entries, contents, target);
  }

  // ---------- Every sequence of runs ----------

  datatype Job = Job(entries: seq<Entry>, contents: seq<Option<Tree>>)

  /** Runs of successive pods, each ended in any way. */
  ghost predicate Runs(volumes: seq<Volume>, jobs: seq<Job>) {
    && |volumes| == |jobs| + 1
    && forall i :: 0 <= i < |jobs| ==>
         && |jobs[i].entries| == |jobs[i].contents|
         && Kept(volumes[i], volumes[i + 1], jobs[i].entries, jobs[i].contents)
  }

  ghost predicate ListedSometime(jobs: seq<Job>, target: string) {
    exists i :: 0 <= i < |jobs| && target in Targets(jobs[i].entries)
  }

  /** Apart from every target ever owned or listed. */
  ghost predicate ApartAlways(volumes: seq<Volume>, jobs: seq<Job>, target: string)
    requires |volumes| == |jobs| + 1
  {
    && !StagedName(target)
    && forall u :: u in OwnedTargets(volumes[0].state) || ListedSometime(jobs, u) ==>
         u != Backup(target) && target != Backup(u)
  }

  lemma ApartNow(volumes: seq<Volume>, jobs: seq<Job>, k: nat, target: string)
    requires Runs(volumes, jobs) && k < |jobs| && ApartAlways(volumes, jobs, target)
    ensures Apart(target, Targets(jobs[k].entries) + OwnedTargets(volumes[k].state))
    ensures ApartAlways(volumes[..k + 1], jobs[..k], target)
  {
    RunsPrefix(volumes, jobs, k);
    ListedBefore(jobs, k);
    forall u | u in Targets(jobs[k].entries) + OwnedTargets(volumes[k].state)
      ensures u != Backup(target) && target != Backup(u)
    {
      if u in Targets(jobs[k].entries) {
        assert ListedSometime(jobs, u);
      } else {
        OwnedCameFromSomewhere(volumes[..k + 1], jobs[..k], u);
      }
    }
  }

  lemma RunsPrefix(volumes: seq<Volume>, jobs: seq<Job>, k: nat)
    requires Runs(volumes, jobs) && k <= |jobs|
    ensures Runs(volumes[..k + 1], jobs[..k])
  {
  }

  lemma ListedBefore(jobs: seq<Job>, k: nat)
    requires k <= |jobs|
    ensures forall t :: ListedSometime(jobs[..k], t) ==> ListedSometime(jobs, t)
  {
    forall t | ListedSometime(jobs[..k], t)
      ensures ListedSometime(jobs, t)
    {
      var i :| 0 <= i < k && t in Targets(jobs[..k][i].entries);
      assert t in Targets(jobs[i].entries);
    }
  }

  lemma {:induction false} OwnedCameFromSomewhere(volumes: seq<Volume>, jobs: seq<Job>, target: string)
    requires Runs(volumes, jobs) && target in OwnedTargets(volumes[|jobs|].state)
    ensures target in OwnedTargets(volumes[0].state) || ListedSometime(jobs, target)
  {
    if jobs != [] {
      var k := |jobs| - 1;
      if target !in Targets(jobs[k].entries) {
        RunsPrefix(volumes, jobs, k);
        ListedBefore(jobs, k);
        OwnedCameFromSomewhere(volumes[..k + 1], jobs[..k], target);
      }
    }
  }

  /** A file that no run listed and the operator never owned is never touched. */
  lemma {:induction false} ForeignUntouched(volumes: seq<Volume>, jobs: seq<Job>, name: string)
    requires Runs(volumes, jobs) && name in volumes[0].files
    requires forall t :: t in OwnedTargets(volumes[0].state) || ListedSometime(jobs, t) ==>
             name != t && name != Backup(t)
    ensures name in volumes[|jobs|].files && volumes[|jobs|].files[name] == volumes[0].files[name]
  {
    if jobs != [] {
      var k := |jobs| - 1;
      RunsPrefix(volumes, jobs, k);
      ListedBefore(jobs, k);
      ForeignUntouched(volumes[..k + 1], jobs[..k], name);
      forall t | t in Targets(jobs[k].entries) + OwnedTargets(volumes[k].state)
        ensures name != t && name != Backup(t)
      {
        if t in Targets(jobs[k].entries) {
          assert ListedSometime(jobs, t);
        } else {
          OwnedCameFromSomewhere(volumes[..k + 1], jobs[..k], t);
        }
      }
    }
  }

  ghost predicate AskedFor(jobs: seq<Job>, target: string, tree: Tree)
    requires forall i :: 0 <= i < |jobs| ==> |jobs[i].entries| == |jobs[i].contents|
  {
    exists i, j :: 0 <= i < |jobs| && 0 <= j < |jobs[i].entries| && jobs[i].entries[j].target == target
                   && jobs[i].contents[j] == Some(tree)
  }

  /** An integration that stays listed is never lost, whatever crashes happen: it or its backup is complete. */
  lemma {:induction false} ListedNeverLost(volumes: seq<Volume>, jobs: seq<Job>, target: string, original: Tree)
    requires Runs(volumes, jobs) && forall i :: 0 <= i < |jobs| ==> target in Targets(jobs[i].entries)
    requires Logical(volumes[0].files, target) == Some(Whole(original)) && ApartAlways(volumes, jobs, target)
    ensures var held := Logical(volumes[|jobs|].files, target);
            held.Some? && held.value.Whole? && (held.value.tree == original || AskedFor(jobs, target, held.value.tree))
  {
    if jobs != [] {
      var k := |jobs| - 1;
      RunsPrefix(volumes, jobs, k);
      ApartNow(volumes, jobs, k, target);
      assert forall i :: 0 <= i < k ==> jobs[..k][i] == jobs[i];
      ListedNeverLost(volumes[..k + 1], jobs[..k], target, original);
      assert MayHold(volumes[k].files, jobs[k].entries, jobs[k].contents, target,
                     Logical(volumes[|jobs|].files, target));
    }
  }

  /** An owned integration stays recorded until it is gone, and never comes back unless it is listed again. */
  lemma {:induction false} OwnedUntilGone(volumes: seq<Volume>, jobs: seq<Job>, target: string)
    requires Runs(volumes, jobs) && target in OwnedTargets(volumes[0].state)
    requires !ListedSometime(jobs, target) && ApartAlways(volumes, jobs, target)
    ensures var last := volumes[|jobs|];
            target in OwnedTargets(last.state) || (target !in last.files && Backup(target) !in last.files)
  {
    if jobs != [] {
      var k := |jobs| - 1;
      RunsPrefix(volumes, jobs, k);
      ListedBefore(jobs, k);
      ApartNow(volumes, jobs, k, target);
      OwnedUntilGone(volumes[..k + 1], jobs[..k], target);
      if target !in OwnedTargets(volumes[k].state) {
        SlotsApart(target, Targets(jobs[k].entries) + OwnedTargets(volumes[k].state));
        BackupNames(target, target);
      }
    }
  }

  /** However many runs were interrupted, the first complete run that no longer lists an owned integration leaves
      neither it nor, unless another listed integration has that name, its backup. */
  lemma UnlistedEventuallyGone(volumes: seq<Volume>, jobs: seq<Job>, last: Job, target: string)
    requires Runs(volumes, jobs) && target in OwnedTargets(volumes[0].state) && ApartAlways(volumes, jobs, target)
    requires !ListedSometime(jobs, target) && target !in Targets(last.entries)
    requires |last.entries| == |last.contents| && AllPlaceable(last.entries, last.contents)
    ensures var after := Completed(volumes[|jobs|], last.entries, last.contents);
            && target !in after.files
            && (Backup(target) !in Targets(last.entries) ==> Backup(target) !in after.files)
  {
    OwnedUntilGone(volumes, jobs, target);
    var before := volumes[|jobs|];
    UnlistedUnlessKnown(before, last.entries, last.contents, target);
    if Backup(target) !in Targets(last.entries) {
      UnlistedUnlessKnown(before, last.entries, last.contents, Backup(target));
    }
  }

  lemma RunsTail(volumes: seq<Volume>, jobs: seq<Job>)
    requires Runs(volumes, jobs) && jobs != []
    ensures Runs(volumes[1..], jobs[1..])
  {
    forall i | 0 <= i < |jobs| - 1
      ensures |jobs[1..][i].entries| == |jobs[1..][i].contents|
      ensures Kept(volumes[1..][i], volumes[1..][i + 1], jobs[1..][i].entries, jobs[1..][i].contents)
    {
      assert jobs[1..][i] == jobs[i + 1] && volumes[1..][i] == volumes[i + 1];
    }
  }

  /** What a run placed, if it was neither stopped nor prevented from saving, is recorded even if it had other
      problems. So the first complete run after the integration is unlisted removes it. */
  lemma PlacedEventuallyGone(volumes: seq<Volume>, jobs: seq<Job>, problems: seq<Problem>, last: Job, target: string)
    requires Runs(volumes, jobs) && jobs != [] && ApartAlways(volumes[1..], jobs[1..], target)
    requires Saved(volumes[0].state, volumes[1].state, jobs[0].entries, problems)
    requires PlacedOnce(jobs[0].entries, problems, target)
    requires !ListedSometime(jobs[1..], target) && target !in Targets(last.entries)
    requires |last.entries| == |last.contents| && AllPlaceable(last.entries, last.contents)
    ensures var after := Completed(volumes[|jobs|], last.entries, last.contents);
            && target !in after.files
            && (Backup(target) !in Targets(last.entries) ==> Backup(target) !in after.files)
  {
    ListingsPositive(jobs[0].entries, target);
    RunsTail(volumes, jobs);
    assert target in OwnedTargets(volumes[1].state);
    UnlistedEventuallyGone(volumes[1..], jobs[1..], last, target);
  }

  lemma {:induction false} ListingsPositive(entries: seq<Entry>, target: string)
    ensures Listings(entries, target) > 0 <==> target in Targets(entries)
  {
    if entries != [] {
      var k := |entries| - 1;
      ListingsPositive(entries[..k], target);
      assert entries == entries[..k] + [entries[k]];
    }
  }

  /** The complete run right after: an integration that is no longer listed goes iff the run before it placed it, or
      it was owned already, or it is named like a backup. */
  lemma UnlistedNextIffPlaced(before: Volume, middle: Volume, first: Job, problems: seq<Problem>, last: Job,
                              target: string)
    requires |first.entries| == |first.contents| && Saved(before.state, middle.state, first.entries, problems)
    requires |last.entries| == |last.contents| && AllPlaceable(last.entries, last.contents)
    requires target in Targets(first.entries) - Targets(last.entries) && target in middle.files
    ensures target !in Completed(middle, last.entries, last.contents).files <==>
            || PlacedOnce(first.entries, problems, target)
            || target in OwnedTargets(before.state)
            || exists u <- Targets(last.entries) + OwnedTargets(middle.state) :: target == Backup(u)
  {
    UnlistedRemovedIffOwned(middle, last.entries, last.contents, target);
  }
}
