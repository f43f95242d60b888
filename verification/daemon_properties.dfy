/** Properties of the capture daemon over whole input traces: contiguous
    numbering within a day, frozen directories after rollover, one finalize
    job per day in chronological order. */
module DaemonProperties {
  import opened Calendar
  import opened FrameNames
  import opened FrameStore
  import opened Daemon

  /** A sequence of capture attempts within one day (no rollover in between). */
  function CaptureAll(s: State, attempts: seq<Attempt>): (t: State)
    ensures s.store.Keys <= t.store.Keys
    decreases |attempts|
  {
    if |attempts| == 0 then s else CaptureAll(Capture(s, attempts[0]), attempts[1..])
  }

  /** The same, with the capture step as the code does it. */
  function CaptureAllAsWritten(s: State, attempts: seq<Attempt>): State
    decreases |attempts|
  {
    if |attempts| == 0 then s else CaptureAllAsWritten(CaptureAsWritten(s, attempts[0]), attempts[1..])
  }

  /** Number of attempts that stored a frame. */
  function CountStored(attempts: seq<Attempt>): nat {
    if |attempts| == 0 then 0
    else (if attempts[0] == Stored then 1 else 0) + CountStored(attempts[1..])
  }

  /** The current directory holds exactly the frames numbered before `next`. */
  predicate DayContiguous(s: State) {
    s.next >= FirstFrame && s.dir in s.store && s.store[s.dir] == NamesUpTo(s.next - 1)
  }

  /** Each stored frame extends the current day's contiguous run by one, and no
      other directory, the day, or the dispatched jobs change. */
  lemma {:induction false} CaptureAllCounts(s: State, attempts: seq<Attempt>)
    requires DayContiguous(s)
    ensures DayContiguous(CaptureAll(s, attempts))
    ensures CaptureAll(s, attempts).next == s.next + CountStored(attempts)
    ensures CaptureAll(s, attempts).store.Keys == s.store.Keys
    ensures forall d :: d in s.store && d != s.dir ==> CaptureAll(s, attempts).store[d] == s.store[d]
    ensures CaptureAll(s, attempts).day == s.day && CaptureAll(s, attempts).dir == s.dir
    ensures CaptureAll(s, attempts).dispatched == s.dispatched
    decreases |attempts|
  {
    if |attempts| > 0 {
      var t := Capture(s, attempts[0]);
      assert DayContiguous(t);
      CaptureAllCounts(t, attempts[1..]);
    }
  }

  /** Starting a day at frame 1 in an empty directory, any sequence of capture
      attempts with `k` stored frames leaves exactly the files `000001.jpg` to
      the `k`-th name, which is the whole input of the daily encode. */
  lemma DayFramesExactly(s: State, attempts: seq<Attempt>)
    requires s.next == FirstFrame && s.dir in s.store && s.store[s.dir] == {}
    ensures CaptureAll(s, attempts).store[s.dir] == NamesUpTo(CountStored(attempts))
    ensures |CaptureAll(s, attempts).store[s.dir]| == CountStored(attempts)
    ensures Contiguous(CaptureAll(s, attempts).store[s.dir])
  {
    CaptureAllCounts(s, attempts);
    NamesUpToSize(CountStored(attempts));
  }

  /** The code's capture step agrees with the corrected one whenever no write fails. */
  lemma {:induction false} AsWrittenAgreesWithoutWriteFailures(s: State, attempts: seq<Attempt>)
    requires forall i :: 0 <= i < |attempts| ==> attempts[i] != WriteFailed
    ensures CaptureAllAsWritten(s, attempts) == CaptureAll(s, attempts)
    decreases |attempts|
  {
    if |attempts| > 0 {
      AsWrittenAgreesWithoutWriteFailures(Capture(s, attempts[0]), attempts[1..]);
    }
  }

  /** As written, a failed JPEG write still consumes a frame number: stored,
      failed write, stored leaves frames 1 and 3, so the daily encode (which
      stops at the first missing number) drops frame 3. */
  lemma UncheckedWriteLeavesGap(s: State)
    requires s.next == FirstFrame && s.dir in s.store && s.store[s.dir] == {}
    ensures CaptureAllAsWritten(s, [Stored, WriteFailed, Stored]).store[s.dir] == {FrameName(1), FrameName(3)}
    ensures CaptureAllAsWritten(s, [Stored, WriteFailed, Stored]).next == 4
    ensures !Contiguous(CaptureAllAsWritten(s, [Stored, WriteFailed, Stored]).store[s.dir])
  {
    var attempts := [Stored, WriteFailed, Stored];
    var s1 := CaptureAsWritten(s, Stored);
    var s2 := CaptureAsWritten(s1, WriteFailed);
    var s3 := CaptureAsWritten(s2, Stored);
    assert attempts[1..] == [WriteFailed, Stored] && attempts[1..][1..] == [Stored];
    assert CaptureAllAsWritten(s, attempts) == s3;
    var files := s3.store[s.dir];
    assert files == {FrameName(1), FrameName(3)};
    FrameNameInjective(1, 3);
    FrameNameInjective(2, 1);
    FrameNameInjective(2, 3);
    assert |files| == 2;
    NamesUpToContains(2, 2);
    assert FrameName(2) !in files;
  }

  /** The code's main loop agrees with the corrected one on every trace in
      which no write fails. */
  lemma {:induction false} RunAsWrittenAgreesWithoutWriteFailures(s: State, interval: int, clock: seq<Date>, attempts: seq<Attempt>)
    requires AllValid(clock)
    requires forall i :: 0 <= i < |attempts| ==> attempts[i] != WriteFailed
    ensures RunAsWritten(s, interval, clock, attempts) == Run(s, interval, clock, attempts)
    decreases |clock|
  {
    if |clock| > 0 && |attempts| > 0 {
      var r := Rollover(s, clock[0]);
      var t := Capture(r, attempts[0]);
      CaptureAgreesWithoutWriteFailure(r, attempts[0]);
      var waited := WaitTicks(interval, t.day, clock[1..]);
      var rest := clock[1 + waited..];
      assert RunAsWritten(s, interval, clock, attempts) == RunAsWritten(t, interval, rest, attempts[1..]);
      assert Run(s, interval, clock, attempts) == Run(t, interval, rest, attempts[1..]);
      RunAsWrittenAgreesWithoutWriteFailures(t, interval, rest, attempts[1..]);
    }
  }

  lemma CaptureAgreesWithoutWriteFailure(s: State, a: Attempt)
    requires a != WriteFailed
    ensures CaptureAsWritten(s, a) == Capture(s, a)
  {
  }

  /** With no wait between captures and the date unchanged, each reading is one
      iteration and the code's loop only captures. */
  lemma {:induction false} RunAsWrittenSameDay(s: State, clock: seq<Date>, attempts: seq<Attempt>)
    requires AllValid(clock) && |clock| == |attempts|
    requires forall i :: 0 <= i < |clock| ==> clock[i] == s.day
    ensures RunAsWritten(s, 0, clock, attempts) == CaptureAllAsWritten(s, attempts)
    decreases |clock|
  {
    if |clock| > 0 {
      assert Rollover(s, clock[0]) == s;
      var t := CaptureAsWritten(s, attempts[0]);
      assert WaitTicks(0, t.day, clock[1..]) == 0;
      assert clock[1 + 0..] == clock[1..];
      RunAsWrittenSameDay(t, clock[1..], attempts[1..]);
    }
  }

  /** The corrected loop, in the same setting. */
  lemma {:induction false} RunSameDay(s: State, clock: seq<Date>, attempts: seq<Attempt>)
    requires AllValid(clock) && |clock| == |attempts|
    requires forall i :: 0 <= i < |clock| ==> clock[i] == s.day
    ensures Run(s, 0, clock, attempts) == CaptureAll(s, attempts)
    decreases |clock|
  {
    if |clock| > 0 {
      assert Rollover(s, clock[0]) == s;
      var t := Capture(s, attempts[0]);
      assert WaitTicks(0, t.day, clock[1..]) == 0;
      assert clock[1 + 0..] == clock[1..];
      RunSameDay(t, clock[1..], attempts[1..]);
    }
  }

  /** The gap through the whole loop: a fresh daemon that stores a frame, fails
      a write and stores again leaves frames 1 and 3 as the code runs, where the
      corrected loop leaves frames 1 and 2. */
  lemma LoopWriteFailureGap(d: Date)
    requires Valid(d)
    ensures RunAsWritten(Init(d, map[]), 0, [d, d, d], [Stored, WriteFailed, Stored]).store[DayDir(d)]
         == {FrameName(1), FrameName(3)}
    ensures !Contiguous(RunAsWritten(Init(d, map[]), 0, [d, d, d], [Stored, WriteFailed, Stored]).store[DayDir(d)])
    ensures Run(Init(d, map[]), 0, [d, d, d], [Stored, WriteFailed, Stored]).store[DayDir(d)] == NamesUpTo(2)
  {
    var s := Init(d, map[]);
    var attempts := [Stored, WriteFailed, Stored];
    assert s.store[s.dir] == {};
    RunAsWrittenSameDay(s, [d, d, d], attempts);
    UncheckedWriteLeavesGap(s);
    RunSameDay(s, [d, d, d], attempts);
    DayFramesExactly(s, attempts);
    assert attempts[1..] == [WriteFailed, Stored] && attempts[1..][1..] == [Stored];
    assert CountStored(attempts) == 2;
  }

  /** Within one day (every clock reading equals the current day) the main
      loop only captures: its effect is that of some prefix of the attempts. */
  lemma {:induction false} RunWithinDay(s: State, interval: int, clock: seq<Date>, attempts: seq<Attempt>)
    requires AllValid(clock)
    requires forall i :: 0 <= i < |clock| ==> clock[i] == s.day
    ensures exists m :: 0 <= m <= |attempts| && Run(s, interval, clock, attempts) == CaptureAll(s, attempts[..m])
    decreases |clock|
  {
    if |clock| == 0 || |attempts| == 0 {
      assert Run(s, interval, clock, attempts) == CaptureAll(s, attempts[..0]);
    } else {
      var t := Capture(s, attempts[0]);
      assert Rollover(s, clock[0]) == s;
      var waited := WaitTicks(interval, t.day, clock[1..]);
      RunWithinDay(t, interval, clock[1 + waited..], attempts[1..]);
      var m :| 0 <= m <= |attempts[1..]| && Run(t, interval, clock[1 + waited..], attempts[1..]) == CaptureAll(t, attempts[1..][..m]);
      assert attempts[..m + 1][0] == attempts[0];
      assert attempts[..m + 1][1..] == attempts[1..][..m];
      assert Run(s, interval, clock, attempts) == CaptureAll(s, attempts[..m + 1]);
    }
  }

  // ---------------------------------------------------------------------------
  // The invariant of the main loop under a clock that never goes backwards

  /** A dispatched job names a day before the current one, that day's own
      directory, and that directory holds a contiguous run of frames. */
  predicate JobReady(s: State, j: Job) {
    && Valid(j.day) && j.dir == DayDir(j.day) && Before(j.day, s.day)
    && j.dir in s.store && Contiguous(s.store[j.dir])
  }

  ghost predicate NoFutureDirs(day: Date, store: Store) {
    forall d :: Valid(d) && Before(day, d) ==> DayDir(d) !in store
  }

  ghost predicate Good(s: State) {
    && Valid(s.day) && s.dir == DayDir(s.day)
    && DayContiguous(s)
    && (forall i :: 0 <= i < |s.dispatched| ==> JobReady(s, s.dispatched[i]))
    && (forall i, j :: 0 <= i < j < |s.dispatched| ==> Before(s.dispatched[i].day, s.dispatched[j].day))
    && NoFutureDirs(s.day, s.store)
  }

  predicate NonDecreasing(clock: seq<Date>) {
    forall i, j :: 0 <= i < j < |clock| ==> AtOrBefore(clock[i], clock[j])
  }

  /** The daemon starts in the invariant when no directory exists yet for
      today or a later day. */
  lemma InitGood(today: Date, store: Store)
    requires Valid(today)
    requires DayDir(today) !in store && NoFutureDirs(today, store)
    ensures Good(Init(today, store))
  {
    var s := Init(today, store);
    forall d | Valid(d) && Before(today, d)
      ensures DayDir(d) !in s.store
    {
      DayDirInjective(d, today);
    }
  }

  /** The rollover check keeps the invariant and leaves every directory of an
      already dispatched day as it was. */
  lemma RolloverGood(s: State, now: Date)
    requires Good(s) && Valid(now) && AtOrBefore(s.day, now)
    ensures Good(Rollover(s, now))
    ensures forall i :: 0 <= i < |s.dispatched| ==>
      Rollover(s, now).store[s.dispatched[i].dir] == s.store[s.dispatched[i].dir]
  {
    if now != s.day {
      var t := Rollover(s, now);
      assert Before(s.day, now);
      assert DayDir(now) !in s.store;
      ContiguousNamesUpTo(s.next - 1);
      assert JobReady(t, Finalize(s.day, s.dir));
      forall i | 0 <= i < |t.dispatched|
        ensures JobReady(t, t.dispatched[i])
      {
        if i < |s.dispatched| {
          assert JobReady(s, s.dispatched[i]);
          BeforeTransitive(s.dispatched[i].day, s.day, now);
        }
      }
      forall d | Valid(d) && Before(now, d)
        ensures DayDir(d) !in t.store
      {
        BeforeTransitive(s.day, now, d);
        DayDirInjective(d, now);
      }
      assert t.store[t.dir] == {};
    }
  }

  /** A capture attempt keeps the invariant and writes only to the current
      day's directory, never to a dispatched one. */
  lemma CaptureGood(s: State, a: Attempt)
    requires Good(s)
    ensures Good(Capture(s, a))
    ensures forall i :: 0 <= i < |s.dispatched| ==>
      Capture(s, a).store[s.dispatched[i].dir] == s.store[s.dispatched[i].dir]
  {
    var t := Capture(s, a);
    forall i | 0 <= i < |s.dispatched|
      ensures s.dispatched[i].dir != s.dir
    {
      assert JobReady(s, s.dispatched[i]);
      DayDirInjective(s.dispatched[i].day, s.day);
    }
    assert DayContiguous(t);
    forall i | 0 <= i < |t.dispatched|
      ensures JobReady(t, t.dispatched[i])
    {
      assert JobReady(s, s.dispatched[i]);
    }
  }

  /** One iteration of the main loop keeps the invariant, leaves the directories
      of already dispatched days as they were, and leaves readings that still
      satisfy the clock assumptions for the next iteration. */
  lemma IterationGood(s: State, interval: int, clock: seq<Date>, attempts: seq<Attempt>)
    requires Good(s) && AllValid(clock) && NonDecreasing(clock)
    requires forall i :: 0 <= i < |clock| ==> AtOrBefore(s.day, clock[i])
    requires |clock| > 0 && |attempts| > 0
    ensures var t := Capture(Rollover(s, clock[0]), attempts[0]);
      var rest := clock[1 + WaitTicks(interval, t.day, clock[1..])..];
      && Good(t) && AllValid(rest) && NonDecreasing(rest)
      && (forall i :: 0 <= i < |rest| ==> AtOrBefore(t.day, rest[i]))
      && s.dispatched <= t.dispatched
      && (forall i :: 0 <= i < |s.dispatched| ==> t.store[s.dispatched[i].dir] == s.store[s.dispatched[i].dir])
  {
    var r := Rollover(s, clock[0]);
    RolloverGood(s, clock[0]);
    var t := Capture(r, attempts[0]);
    CaptureGood(r, attempts[0]);
    var waited := WaitTicks(interval, t.day, clock[1..]);
    assert AtOrBefore(t.day, clock[0]);
    ReadingsAfter(t.day, clock, 1 + waited);
    forall i | 0 <= i < |s.dispatched|
      ensures t.store[s.dispatched[i].dir] == s.store[s.dispatched[i].dir]
    {
      var dir := s.dispatched[i].dir;
      assert r.dispatched[i].dir == dir;
      assert r.store[dir] == s.store[dir];
    }
  }

  /** The main theorem: under a clock that never goes backwards, every run of
      the main loop keeps the invariant. So the current day's frames are always
      exactly `000001.jpg` up to the last stored one; every dispatched job names
      an earlier day and its own directory, which holds a contiguous run; and
      dispatched days are strictly increasing, so no day is finalized twice. */
  lemma {:induction false} RunGood(s: State, interval: int, clock: seq<Date>, attempts: seq<Attempt>)
    requires Good(s) && AllValid(clock) && NonDecreasing(clock)
    requires forall i :: 0 <= i < |clock| ==> AtOrBefore(s.day, clock[i])
    ensures Good(Run(s, interval, clock, attempts))
    decreases |clock|
  {
    if |clock| > 0 && |attempts| > 0 {
      IterationGood(s, interval, clock, attempts);
      var t := Capture(Rollover(s, clock[0]), attempts[0]);
      var rest := clock[1 + WaitTicks(interval, t.day, clock[1..])..];
      RunGood(t, interval, rest, attempts[1..]);
    }
  }

  /** In the same setting, a directory, once its day is dispatched, is never
      written again. */
  lemma {:induction false} RunFreezesDispatched(s: State, interval: int, clock: seq<Date>, attempts: seq<Attempt>)
    requires Good(s) && AllValid(clock) && NonDecreasing(clock)
    requires forall i :: 0 <= i < |clock| ==> AtOrBefore(s.day, clock[i])
    ensures forall i :: 0 <= i < |s.dispatched| ==>
      Run(s, interval, clock, attempts).store[s.dispatched[i].dir] == s.store[s.dispatched[i].dir]
    decreases |clock|
  {
    if |clock| > 0 && |attempts| > 0 {
      IterationGood(s, interval, clock, attempts);
      var t := Capture(Rollover(s, clock[0]), attempts[0]);
      var rest := clock[1 + WaitTicks(interval, t.day, clock[1..])..];
      RunFreezesDispatched(t, interval, rest, attempts[1..]);
      forall i | 0 <= i < |s.dispatched|
        ensures Run(t, interval, rest, attempts[1..]).store[s.dispatched[i].dir] == s.store[s.dispatched[i].dir]
      {
        assert t.dispatched[i] == s.dispatched[i];
      }
    }
  }

  /** Under a clock that does not go back, every suffix of the readings is at or
      after a day that is at or before the first reading. */
  lemma ReadingsAfter(day: Date, clock: seq<Date>, k: nat)
    requires AllValid(clock) && NonDecreasing(clock)
    requires 0 < |clock| && k <= |clock| && AtOrBefore(day, clock[0])
    ensures AllValid(clock[k..]) && NonDecreasing(clock[k..])
    ensures forall i :: 0 <= i < |clock[k..]| ==> AtOrBefore(day, clock[k..][i])
  {
    forall i | 0 <= i < |clock[k..]|
      ensures AtOrBefore(day, clock[k..][i])
    {
      assert clock[k..][i] == clock[k + i];
      if k + i > 0 {
        BeforeTransitive(day, clock[0], clock[k + i]);
      }
    }
  }

  /** One iteration with an interval of two ticks during which the date stays. */
  lemma SameDayIteration(s: State, clock: seq<Date>, attempts: seq<Attempt>)
    requires AllValid(clock) && |clock| >= 3 && |attempts| >= 1
    requires clock[0] == s.day && clock[1] == s.day && clock[2] == s.day
    ensures Run(s, 2, clock, attempts) == Run(Capture(s, attempts[0]), 2, clock[3..], attempts[1..])
  {
    assert WaitTicks(2, s.day, clock[1..]) == 2;
  }

  /** The state after the scenario's first day: frames 1 to 3 in day one's directory. */
  function AfterFirstDay(d1: Date): State
    requires Valid(d1)
  {
    State(d1, DayDir(d1), 4, map[DayDir(d1) := {FrameName(1), FrameName(2), FrameName(3)}], [])
  }

  lemma CaptureIntoOnlyDir(s: State, files: set<string>)
    requires s.store == map[s.dir := files]
    ensures Capture(s, Stored) == s.(store := map[s.dir := files + {FrameName(s.next)}], next := s.next + 1)
  {
    var t := Capture(s, Stored);
    assert t.store.Keys == {s.dir};
    assert t.store == map[s.dir := files + {FrameName(s.next)}];
  }

  lemma ThreeCaptures(d1: Date)
    requires Valid(d1)
    ensures Capture(Capture(Capture(Init(d1, map[]), Stored), Stored), Stored) == AfterFirstDay(d1)
  {
    var dir1 := DayDir(d1);
    var s0 := Init(d1, map[]);
    assert s0.store == map[dir1 := {}];
    CaptureIntoOnlyDir(s0, {});
    var s1 := Capture(s0, Stored);
    assert s1.next == 2;
    assert {} + {FrameName(1)} == {FrameName(1)};
    CaptureIntoOnlyDir(s1, {FrameName(1)});
    var s2 := Capture(s1, Stored);
    assert s2.next == 3;
    assert {FrameName(1)} + {FrameName(2)} == {FrameName(1), FrameName(2)};
    CaptureIntoOnlyDir(s2, {FrameName(1), FrameName(2)});
    assert {FrameName(1), FrameName(2)} + {FrameName(3)} == {FrameName(1), FrameName(2), FrameName(3)};
  }

  /** `k` iterations with an interval of two ticks during which the date stays
      are `k` capture attempts. */
  lemma {:induction false} SameDayIterations(s: State, clock: seq<Date>, attempts: seq<Attempt>, k: nat)
    requires AllValid(clock) && 3 * k <= |clock| && k <= |attempts|
    requires forall i :: 0 <= i < 3 * k ==> clock[i] == s.day
    ensures Run(s, 2, clock, attempts) == Run(CaptureAll(s, attempts[..k]), 2, clock[3 * k..], attempts[k..])
    decreases k
  {
    if k == 0 {
      assert attempts[..0] == [] && clock[0..] == clock && attempts[0..] == attempts;
    } else {
      var s1 := Capture(s, attempts[0]);
      var c3, a1 := clock[3..], attempts[1..];
      assert clock[0] == s.day && clock[1] == s.day && clock[2] == s.day;
      SameDayIteration(s, clock, attempts);
      SameDayTail(s.day, clock, k);
      SameDayIterations(s1, c3, a1, k - 1);
      DropIterations(clock, attempts, k);
      CaptureAllFirst(s, attempts[..k]);
    }
  }

  lemma SameDayTail(day: Date, clock: seq<Date>, k: nat)
    requires 0 < k && 3 * k <= |clock|
    requires forall i :: 0 <= i < 3 * k ==> clock[i] == day
    ensures forall i :: 0 <= i < 3 * (k - 1) ==> clock[3..][i] == day
  {
    forall i | 0 <= i < 3 * (k - 1)
      ensures clock[3..][i] == day
    {
      assert clock[3..][i] == clock[i + 3];
    }
  }

  lemma DropIterations(clock: seq<Date>, attempts: seq<Attempt>, k: nat)
    requires 0 < k && 3 * k <= |clock| && k <= |attempts|
    ensures clock[3..][3 * (k - 1)..] == clock[3 * k..]
    ensures attempts[1..][k - 1..] == attempts[k..]
    ensures attempts[..k][1..] == attempts[1..][..k - 1]
  {
  }

  lemma CaptureAllFirst(s: State, attempts: seq<Attempt>)
    requires |attempts| > 0
    ensures CaptureAll(s, attempts) == CaptureAll(Capture(s, attempts[0]), attempts[1..])
  {
  }

  lemma CaptureAllThree(s: State)
    ensures CaptureAll(s, [Stored, Stored, Stored]) == Capture(Capture(Capture(s, Stored), Stored), Stored)
  {
    var three := [Stored, Stored, Stored];
    assert three[1..] == [Stored, Stored] && three[1..][1..] == [Stored] && three[1..][1..][1..] == [];
    CaptureAllFirst(s, three);
    CaptureAllFirst(Capture(s, Stored), three[1..]);
    CaptureAllFirst(Capture(Capture(s, Stored), Stored), three[1..][1..]);
  }

  /** The scenario's first day: three iterations on day `d1`. */
  lemma ScenarioFirstDay(d1: Date, d2: Date)
    requires Valid(d1) && Valid(d2)
    ensures Run(Init(d1, map[]), 2, [d1, d1, d1, d1, d1, d1, d1, d1, d1, d2], [Stored, Stored, Stored, Stored])
         == Run(AfterFirstDay(d1), 2, [d2], [Stored])
  {
    var clock := [d1, d1, d1, d1, d1, d1, d1, d1, d1, d2];
    var attempts := [Stored, Stored, Stored, Stored];
    var s0 := Init(d1, map[]);
    SameDayIterations(s0, clock, attempts, 3);
    assert clock[9..] == [d2] && attempts[3..] == [Stored];
    assert attempts[..3] == [Stored, Stored, Stored];
    CaptureAllThree(s0);
    ThreeCaptures(d1);
  }

  /** The scenario: a capture interval of two ticks, three captures on
      the first day, then the date changes. The first day's directory holds
      frames 1 to 3, exactly one finalize job is dispatched for it, and the
      second day starts again at frame 1. */
  lemma ThreeFramesThenRollover(d1: Date, d2: Date)
    requires Valid(d1) && Valid(d2) && d1 != d2
    ensures var t := Run(Init(d1, map[]), 2, [d1, d1, d1, d1, d1, d1, d1, d1, d1, d2], [Stored, Stored, Stored, Stored]);
      && t.dispatched == [Finalize(d1, DayDir(d1))]
      && DayDir(d1) in t.store && t.store[DayDir(d1)] == {FrameName(1), FrameName(2), FrameName(3)}
      && t.day == d2
      && DayDir(d2) in t.store && t.store[DayDir(d2)] == {FrameName(1)}
      && t.next == 2
  {
    var dir1, dir2 := DayDir(d1), DayDir(d2);
    DayDirInjective(d1, d2);
    ScenarioFirstDay(d1, d2);
    var s3 := AfterFirstDay(d1);
    var s4 := Capture(Rollover(s3, d2), Stored);
    assert WaitTicks(2, d2, [d2][1..]) == 0;
    assert Run(s3, 2, [d2], [Stored]) == s4;
    assert s4.store[dir1] == s3.store[dir1];
    assert s4.store[dir2] == {FrameName(1)};
  }
}
