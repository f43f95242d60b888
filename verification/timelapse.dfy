/** The daemon and the finalizer together: jobs are dispatched in rollover
    order, so jobs run in that order build a master in chronological order. */
module Timelapse {
  import opened Optional
  import opened Calendar
  import opened Daemon
  import opened DaemonProperties
  import opened Delivery
  import opened Finalizer

  /** The days of the dispatched finalize jobs, in dispatch order. */
  function JobDays(jobs: seq<Job>): (days: seq<Date>)
    ensures |days| == |jobs|
    ensures forall i :: 0 <= i < |jobs| ==> days[i] == jobs[i].day
  {
    if |jobs| == 0 then [] else [jobs[0].day] + JobDays(jobs[1..])
  }

  /** From any state of the main loop that keeps its invariant, running the
      dispatched jobs one after another, starting without a master, leaves a
      master whose days are in strictly chronological order with no day twice. */
  lemma DispatchOrderKeepsMasterChronological(s: State, cfg: Config, envs: seq<Env>)
    requires Good(s) && |envs| == |s.dispatched|
    ensures StrictlyIncreasing(Contents(FinalizeAll(cfg, JobDays(s.dispatched), None, envs)))
  {
    var days := JobDays(s.dispatched);
    assert StrictlyIncreasing(days);
    MasterChronological(cfg, days, envs);
  }
}
