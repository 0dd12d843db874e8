/** Recovery from Home Assistant's own IP ban by restarting the pod: a window of counted restarts with a cooldown. */
module BanRecovery {
  import opened Wrappers

  /** Times are in milliseconds. */
  const MAX_COUNT := 3
  const WINDOW := 30 * 60 * 1000
  const COOLDOWN := 5 * 60 * 1000
  const SECOND := 1000

  /** The two clock readings of one call lie less than this apart. */
  const MAX_LAG := 60 * SECOND

  /** A stored time keeps whole seconds. */
  function Stamp(t: nat): nat { t - t % SECOND }

  datatype Condition = NoCondition | InProgress | LimitExceeded

  /** The ban-recovery fields of the HomeAssistant status. */
  datatype Status = Status(start: Option<nat>, count: nat, last: Option<nat>, total: nat, condition: Condition)

  /** A counted restart: when, its place in its window, and when that window began. */
  datatype Restart = Restart(at: nat, place: nat, anchor: nat)

  predicate Expired(s: Status, now: nat) { s.start.Some? && now - s.start.value > WINDOW }

  predicate Cooling(s: Status, check: nat) { s.last.Some? && check - s.last.value < COOLDOWN }

  /** The status after one more counted restart. */
  function Counted(s: Status, now: nat): Status {
    var first := s.start.None? || Expired(s, now);
    Status(if first then Some(Stamp(now)) else s.start,
           (if Expired(s, now) then 0 else s.count) + 1,
           Some(Stamp(now)), s.total + 1, InProgress)
  }

  predicate WindowStart(r: Restart) { r.place == 1 && r.anchor == r.at }

  /** What lies between two successive counted restarts. */
  predicate Next(r: Restart, r': Restart) {
    && r'.at - r.at > COOLDOWN - SECOND - MAX_LAG
    && (|| (r'.place == r.place + 1 <= MAX_COUNT && r'.anchor == r.anchor)
        || (WindowStart(r') && r'.at - r.anchor > WINDOW - SECOND))
  }

  /** How the counted restarts since the last reset lie in time. */
  ghost predicate Spaced(h: seq<Restart>) {
    && (h != [] ==> WindowStart(h[0]))
    && forall i, j :: 0 <= i < j < |h| && j == i + 1 ==> Next(h[i], h[j])
  }

  /** The status is what the counted restarts make it. */
  ghost predicate Records(s: Status, h: seq<Restart>) {
    if h == [] then s.start.None? && s.count == 0 && s.last.None?
    else
      var r := h[|h| - 1];
      s.count == r.place && s.last == Some(Stamp(r.at)) && s.start == Some(Stamp(r.anchor))
  }

  /** The next restart in the history. */
  function Following(h: seq<Restart>, s: Status, now: nat): Restart {
    Restart(now, Counted(s, now).count, if h == [] || Expired(s, now) then now else h[|h| - 1].anchor)
  }

  predicate MayCount(s: Status, now: nat, check: nat) {
    !Cooling(s, check) && (Expired(s, now) || s.count < MAX_COUNT)
  }

  // ---------- Runs of counted restarts ----------

  /** The two clock readings of a call that counted a restart. */
  datatype Call = Call(now: nat, check: nat)

  /** The status after these calls since the last reset. */
  function After(calls: seq<Call>): Status {
    if calls == [] then Status(None, 0, None, 0, NoCondition)
    else Counted(After(calls[..|calls| - 1]), calls[|calls| - 1].now)
  }

  /** Each call may count in the status that the earlier ones leave. */
  predicate Runs(calls: seq<Call>) {
    calls == []
    || var before, c := calls[..|calls| - 1], calls[|calls| - 1];
       && Runs(before) && c.now <= c.check < c.now + MAX_LAG && MayCount(After(before), c.now, c.check)
       && (before != [] ==> before[|before| - 1].now <= c.now)
  }

  function History(calls: seq<Call>): (h: seq<Restart>)
    ensures |h| == |calls|
  {
    if calls == [] then []
    else
      var before := calls[..|calls| - 1];
      History(before) + [Following(History(before), After(before), calls[|calls| - 1].now)]
  }

  datatype Outcome = Waiting | LimitReached | PodNotRemoved | Unrecorded | Restarted

  /** The same window and cooldown. */
  predicate SameCounters(s: Status, t: Status) { s.start == t.start && s.count == t.count && s.last == t.last }

  lemma CountedAlike(s: Status, t: Status, now: nat)
    requires SameCounters(s, t)
    ensures SameCounters(Counted(s, now), Counted(t, now))
  {
  }

  lemma LastCall(calls: seq<Call>, c: Call)
    ensures (calls + [c])[..|calls + [c]| - 1] == calls && (calls + [c])[|calls + [c]| - 1] == c
  {
  }

  /** A call that may count extends the run. */
  lemma OneMoreCall(calls: seq<Call>, s: Status, now: nat, check: nat)
    requires Runs(calls) && SameCounters(s, After(calls)) && MayCount(s, now, check) && now <= check < now + MAX_LAG
    requires calls != [] ==> calls[|calls| - 1].now <= now
    ensures Runs(calls + [Call(now, check)])
    ensures After(calls + [Call(now, check)]) == Counted(After(calls), now)
    ensures SameCounters(Counted(s, now), After(calls + [Call(now, check)]))
  {
    LastCall(calls, Call(now, check));
    CountedAlike(s, After(calls), now);
  }

  /** Less than half an hour has passed since the window began. */
  predicate InWindow(s: Status, now: nat) { s.start.Some? && now - s.start.value <= 30 * 60_000 }

  /** One more restart is on record: in the current window, or else as the first of one that begins now. */
  predicate OnRecord(s: Status, s': Status, now: nat) {
    && s'.last == Some(now - now % 1000) && s'.total == s.total + 1 && s'.condition == InProgress
    && s'.start == (if InWindow(s, now) then s.start else s'.last)
    && s'.count == 1 + if InWindow(s, now) then s.count else 0
  }

  lemma CountedIsOnRecord(s: Status, now: nat)
    requires s.start.None? ==> s.count == 0
    ensures OnRecord(s, Counted(s, now), now)
  {
  }

  class BanRecoverer {
    var status: Status
    /** The calls that counted a restart since the last reset. */
    ghost var calls: seq<Call>
    /** Status patches so far that reported a failure. */
    ghost var faults: nat

    ghost predicate Valid()
      reads this
    {
      Runs(calls) && SameCounters(status, After(calls))
    }

    constructor ()
      ensures Valid() && calls == [] && status == Status(None, 0, None, 0, NoCondition)
    {
      status, calls, faults := Status(None, 0, None, 0, NoCondition), [], 0;
    }

    /** A status patch: it may fail, with or without effect. */
    method Patch(next: Status) returns (ok: bool)
      modifies this`status, this`faults
      ensures status == next || (!ok && status == old(status))
      ensures faults == old(faults) + if ok then 0 else 1
    {
      var applied: bool;
      ok, applied := *, *;
      if ok || applied {
        status := next;
      }
      if !ok {
        faults := faults + 1;
      }
    }

    /** handleSelfBan. `now` is read at the start, `check` when the cooldown is compared. */
    method HandleSelfBan(now: nat, check: nat, podRemoved: bool) returns (o: Outcome)
      requires Valid() && now <= check < now + MAX_LAG
      requires calls != [] ==> calls[|calls| - 1].now <= now
      modifies this
      ensures Valid()
      ensures var s := old(status);
              var waits, exhausted := s.last.Some? && check - s.last.value < 5 * 60_000,
                                      InWindow(s, now) && s.count >= 3;
              && (o == Waiting <==> waits)
              && (o == LimitReached <==> !waits && exhausted)
              && (o == PodNotRemoved <==> !waits && !exhausted && !podRemoved)
              && (o == Restarted || o == Unrecorded <==> !waits && !exhausted && podRemoved)
              && (o == Restarted ==> OnRecord(s, status, now))
              && (o == LimitReached && faults == old(faults) ==> status == s.(condition := LimitExceeded))
              && (faults == old(faults) ==> o != Unrecorded)
      ensures if status.total > old(status.total)
              then status == Counted(old(status), now) && MayCount(old(status), now, check)
                   && calls == old(calls) + [Call(now, check)]
              else calls == old(calls) && status == old(status).(condition := status.condition)
      ensures status.total == old(status.total) && status != old(status) ==>
                o == LimitReached && status.condition == LimitExceeded
    {
      CountersShowCalls(calls);
      CountedIsOnRecord(status, now);
      var s := status;
      if s.start.Some? && now - s.start.value > WINDOW {
        s := s.(start := None, count := 0);
      }
      if s.last.Some? {
        var elapsed := check - s.last.value;
        if elapsed < COOLDOWN {
          return Waiting;
        }
      }
      if s.count >= MAX_COUNT {
        var patched := Patch(status.(condition := LimitExceeded));
        return LimitReached;
      }
      if !podRemoved {
        return PodNotRemoved;
      }
      if s.start.None? {
        s := s.(start := Some(Stamp(now)));
      }
      s := s.(count := s.count + 1, last := Some(Stamp(now)), total := s.total + 1, condition := InProgress);
      assert s == Counted(status, now);
      var patched := Patch(s);
      if status.total == s.total {
        OneMoreCall(calls, old(status), now, check);
        calls := calls + [Call(now, check)];
      }
      return if patched then Restarted else Unrecorded;
    }

    /** resetBanRecovery, after a connection that worked. A patch that reports a failure may have been applied. */
    method Reset() returns (ok: bool)
      requires Valid()
      modifies this
      ensures Valid()
      ensures ok ==> calls == []
      ensures faults == old(faults) ==> ok
      ensures if calls == [] then
                status == Status(None, 0, None, old(status.total), if ok || status != old(status) then NoCondition
                                                                   else old(status.condition))
              else !ok && calls == old(calls) && status == old(status)
    {
      if status.count == 0 && status.last.None? && status.condition.NoCondition? {
        CountersShowCalls(calls);
        return true;
      }
      var next := Status(None, 0, None, status.total, NoCondition);
      ok := Patch(next);
      if status == next {
        calls := [];
      } else {
        CountersShowCalls(calls);
      }
    }
  }

  lemma CountersShowCalls(calls: seq<Call>)
    ensures calls == [] <==> After(calls).last.None?
    ensures calls == [] <==> After(calls).start.None?
    ensures calls == [] ==> After(calls).start.None? && After(calls).count == 0
  {
  }

  lemma StampBounds(t: nat)
    ensures Stamp(t) <= t < Stamp(t) + SECOND && Stamp(t) % SECOND == 0
  {
  }

  /** A permitted restart extends the history as the status says. */
  lemma OneMore(s: Status, h: seq<Restart>, now: nat, check: nat)
    requires Spaced(h) && Records(s, h) && MayCount(s, now, check) && now <= check < now + MAX_LAG
    requires h != [] ==> h[|h| - 1].at <= now
    ensures Spaced(h + [Following(h, s, now)]) && Records(Counted(s, now), h + [Following(h, s, now)])
  {
    if h != [] {
      var r := h[|h| - 1];
      StampBounds(r.at);
      StampBounds(r.anchor);
      assert Next(r, Following(h, s, now));
    }
  }

  // ---------- What the counters bound ----------

  lemma {:induction false} PlacesBounded(h: seq<Restart>, i: nat)
    requires Spaced(h) && i < |h|
    ensures 1 <= h[i].place <= MAX_COUNT && h[i].anchor <= h[i].at && (h[i].place == 1 ==> WindowStart(h[i]))
  {
    if i > 0 {
      PlacesBounded(h, i - 1);
      assert Next(h[i - 1], h[i]);
    }
  }

  /** Four successive restarts are never in one window: one of the last three begins a new one. */
  lemma WindowHoldsThree(h: seq<Restart>, i: nat)
    requires Spaced(h) && i + 3 < |h|
    ensures exists j :: i < j <= i + 3 && WindowStart(h[j])
  {
    PlacesBounded(h, i);
    assert Next(h[i], h[i + 1]) && Next(h[i + 1], h[i + 2]) && Next(h[i + 2], h[i + 3]);
  }

  /** Any six counted restarts without a reset in between take longer than one window: no interval of thirty minutes,
      ends included, holds more than five. */
  lemma SixOutlastAWindow(h: seq<Restart>, i: nat)
    requires Spaced(h) && i + 5 < |h|
    ensures h[i + 5].at - h[i].at > WINDOW
  {
    PlacesBounded(h, i);
    var a, b, c, d, e, f := h[i], h[i + 1], h[i + 2], h[i + 3], h[i + 4], h[i + 5];
    assert Next(a, b) && Next(b, c) && Next(c, d) && Next(d, e) && Next(e, f);
  }

  // ---------- Over runs ----------

  /** What the calls leave behind is a spaced history, and the status is what it makes it. */
  lemma {:induction false} RunsAreSpaced(calls: seq<Call>)
    requires Runs(calls)
    ensures Spaced(History(calls)) && Records(After(calls), History(calls))
    ensures forall i :: 0 <= i < |calls| ==> History(calls)[i].at == calls[i].now
  {
    if calls != [] {
      var before, c := calls[..|calls| - 1], calls[|calls| - 1];
      RunsAreSpaced(before);
      OneMore(After(before), History(before), c.now, c.check);
    }
  }

  /** Whatever calls are made, six counted restarts without a reset in between outlast a window, and one of four
      begins a new one. */
  lemma RestartsAreBounded(calls: seq<Call>, i: nat)
    requires Runs(calls)
    ensures i + 5 < |calls| ==> calls[i + 5].now - calls[i].now > WINDOW
    ensures i + 3 < |calls| ==> exists j :: i < j <= i + 3 && WindowStart(History(calls)[j])
  {
    RunsAreSpaced(calls);
    if i + 5 < |calls| {
      SixOutlastAWindow(History(calls), i);
    }
    if i + 3 < |calls| {
      WindowHoldsThree(History(calls), i);
    }
  }

  /** Five in thirty minutes do happen. */
  lemma FiveInAWindow() returns (calls: seq<Call>)
    ensures Runs(calls) && |calls| == 6 && calls[5].now - calls[1].now <= WINDOW
  {
    OneMoreCall([], After([]), 0, 0);
    calls := [] + [Call(0, 0)];
    OneMoreCall(calls, After(calls), 1200000, 1200000);
    calls := calls + [Call(1200000, 1200000)];
    OneMoreCall(calls, After(calls), 1500000, 1500000);
    calls := calls + [Call(1500000, 1500000)];
    OneMoreCall(calls, After(calls), 1801000, 1801000);
    calls := calls + [Call(1801000, 1801000)];
    OneMoreCall(calls, After(calls), 2101000, 2101000);
    calls := calls + [Call(2101000, 2101000)];
    OneMoreCall(calls, After(calls), 2401000, 2401000);
    calls := calls + [Call(2401000, 2401000)];
  }

  /** Although stored times lose their fraction of a second, the cooldown is exact on them. */
  lemma StampsKeepCooldown(calls: seq<Call>, check: nat)
    requires calls != []
    ensures Cooling(After(calls), check) <==> Stamp(check) - Stamp(calls[|calls| - 1].now) < COOLDOWN
  {
    StampBounds(check);
    StampBounds(calls[|calls| - 1].now);
  }

  /** So the stored times of successive restarts are the cooldown apart, up to the time between the two readings of a
      call, counted in started seconds. */
  lemma {:induction false} StampsApart(calls: seq<Call>, i: nat)
    requires Runs(calls) && i + 1 < |calls|
    ensures Stamp(calls[i + 1].check) - Stamp(calls[i].now) >= COOLDOWN
    ensures calls[i + 1].check == calls[i + 1].now ==> Stamp(calls[i + 1].now) - Stamp(calls[i].now) >= COOLDOWN
  {
    if i + 2 == |calls| {
      StampsKeepCooldown(calls[..|calls| - 1], calls[i + 1].check);
    } else {
      StampsApart(calls[..|calls| - 1], i);
    }
  }
}
