/** The capture daemon: current-day tracking, frame numbering, day rollover
    with dispatch of a finalize job, and the paced wait between captures.
    The clock is a sequence of `date.today()` readings and the camera a
    sequence of capture outcomes; the run ends when either runs out. */
module Daemon {
  import opened Calendar
  import opened FrameNames
  import opened FrameStore

  /** A finalize job handed off at rollover: the finished day and its directory. */
  datatype Job = Finalize(day: Date, dir: string)

  /** What one capture attempt did: the camera read failed, the read succeeded
      but writing the JPEG failed, or the frame was stored. */
  datatype Attempt = ReadFailed | WriteFailed | Stored

  /** The daemon's state: current day and its directory, the next frame number,
      the frames on disk, and the finalize jobs dispatched so far (in order). */
  datatype State = State(day: Date, dir: string, next: nat, store: Store, dispatched: seq<Job>)

  predicate AllValid(clock: seq<Date>) {
    forall i :: 0 <= i < |clock| ==> Valid(clock[i])
  }

  /** The daemon as constructed: today's directory exists, numbering starts at 1,
      and nothing has been dispatched. */
  function Init(today: Date, store: Store): (s: State)
    requires Valid(today)
    ensures s.day == today && s.dir == DayDir(today) && s.next == FirstFrame
    ensures s.dispatched == []
    ensures s.store == EnsureDir(store, DayDir(today))
  {
    State(today, DayDir(today), FirstFrame, EnsureDir(store, DayDir(today)), [])
  }

  /** The date check at the top of each loop iteration. A date that differs from
      the current day in any way (including a gap of several days) dispatches
      exactly one finalize job for the outgoing day and switches to a fresh
      numbering in the new day's directory; an equal date changes nothing. */
  function Rollover(s: State, now: Date): (t: State)
    requires Valid(now)
    ensures now == s.day ==> t == s
    ensures now != s.day ==>
      && t.dispatched == s.dispatched + [Finalize(s.day, s.dir)]
      && t.day == now && t.dir == DayDir(now) && t.next == FirstFrame
      && t.store == EnsureDir(s.store, DayDir(now))
    ensures |t.dispatched| == |s.dispatched| + (if now != s.day then 1 else 0)
  {
    if now != s.day then
      State(now, DayDir(now), FirstFrame, EnsureDir(s.store, DayDir(now)), s.dispatched + [Finalize(s.day, s.dir)])
    else s
  }

  /** One capture attempt. A stored frame adds exactly the file named after the
      current number to the current directory and advances the number by one;
      any failure leaves the whole state unchanged. */
  function Capture(s: State, a: Attempt): (t: State)
    ensures a == Stored ==>
      && t.store.Keys == s.store.Keys + {s.dir}
      && t.store[s.dir] == (if s.dir in s.store then s.store[s.dir] else {}) + {FrameName(s.next)}
      && (forall d :: d in s.store && d != s.dir ==> t.store[d] == s.store[d])
      && t.next == s.next + 1
      && t.day == s.day && t.dir == s.dir && t.dispatched == s.dispatched
    ensures a != Stored ==> t == s
  {
    if a == Stored then s.(store := WriteFile(s.store, s.dir, FrameName(s.next)), next := s.next + 1)
    else s
  }

  /** The capture step as the code does it: the result of writing the JPEG is
      not checked, so a failed write still advances the frame number. */
  function CaptureAsWritten(s: State, a: Attempt): (t: State)
    ensures a == ReadFailed ==> t == s
    ensures a == WriteFailed ==> t == s.(next := s.next + 1)
    ensures a == Stored ==> t == Capture(s, a)
  {
    match a
    case ReadFailed => s
    case WriteFailed => s.(next := s.next + 1)
    case Stored => s.(store := WriteFile(s.store, s.dir, FrameName(s.next)), next := s.next + 1)
  }

  /** The paced wait: up to `interval` one-second ticks, each followed by a clock
      reading, stopping after the first reading that differs from `day`. The
      result is the number of ticks (and readings) used. It is fully determined
      by: no reading before the last one differed, and the wait ended because
      the last reading differed, the interval was used up, or the clock ran out. */
  function WaitTicks(interval: int, day: Date, ticks: seq<Date>): (n: nat)
    ensures n <= |ticks| && n <= (if interval < 0 then 0 else interval)
    ensures forall i :: 0 <= i < n - 1 ==> ticks[i] == day
    ensures || (n > 0 && ticks[n - 1] != day)
            || n == interval
            || n == |ticks|
            || (interval < 0 && n == 0)
    decreases |ticks|
  {
    if interval <= 0 || |ticks| == 0 then 0
    else if ticks[0] != day then 1
    else 1 + WaitTicks(interval - 1, day, ticks[1..])
  }

  /** The main loop, one iteration per clock reading at the top of the loop:
      rollover check, one capture attempt, then the paced wait. The capture
      step is the corrected one; `RunAsWritten` is the loop as the code runs it. */
  function Run(s: State, interval: int, clock: seq<Date>, attempts: seq<Attempt>): (t: State)
    requires AllValid(clock)
    ensures s.dispatched <= t.dispatched
    ensures s.store.Keys <= t.store.Keys
    decreases |clock|
  {
    if |clock| == 0 || |attempts| == 0 then s
    else
      var captured := Capture(Rollover(s, clock[0]), attempts[0]);
      var waited := WaitTicks(interval, captured.day, clock[1..]);
      Run(captured, interval, clock[1 + waited..], attempts[1..])
  }

  /** The main loop with the code's capture step, which advances the frame
      number after a failed write. */
  function RunAsWritten(s: State, interval: int, clock: seq<Date>, attempts: seq<Attempt>): (t: State)
    requires AllValid(clock)
    ensures s.dispatched <= t.dispatched
    ensures s.store.Keys <= t.store.Keys
    decreases |clock|
  {
    if |clock| == 0 || |attempts| == 0 then s
    else
      var captured := CaptureAsWritten(Rollover(s, clock[0]), attempts[0]);
      var waited := WaitTicks(interval, captured.day, clock[1..]);
      RunAsWritten(captured, interval, clock[1 + waited..], attempts[1..])
  }
}
