/** The end-of-day job: build the daily video, send it, merge it into the
    master video, send the master. Videos are abstract: a video is the list of
    days whose frames it shows, in order. */
module Finalizer {
  import opened Optional
  import opened Calendar
  import opened Delivery

  type Video = seq<Date>

  /** What the master file shows; an absent master shows nothing. */
  function Contents(master: Option<Video>): Video {
    match master
    case None => []
    case Some(v) => v
  }

  datatype MergeOutcome = MergeOutcome(ok: bool, master: Option<Video>)

  /** Merging a daily video into the master. With no master the daily video is
      copied; otherwise the two are concatenated into a temporary file that
      replaces the master only once the concatenation has succeeded. `externalOk`
      is whether the copy or the concatenation succeeded. On success the master
      shows what it showed before followed by the daily video; on failure it is
      exactly what it was. */
  function Merge(master: Option<Video>, daily: Video, externalOk: bool): (r: MergeOutcome)
    ensures r.ok == externalOk
    ensures r.ok ==> r.master == Some(Contents(master) + daily)
    ensures !r.ok ==> r.master == master
  {
    match master
    case None =>
      assert [] + daily == daily;
      if externalOk then MergeOutcome(true, Some(daily)) else MergeOutcome(false, None)
    case Some(m) =>
      if externalOk then MergeOutcome(true, Some(m + daily)) else MergeOutcome(false, master)
  }

  // ---------------------------------------------------------------------------
  // Ordered fallible steps

  datatype Step = BuildDaily | SendDaily | MergeIntoMaster | SendMaster

  /** The job's steps, in the order they run. */
  const JobSteps: seq<Step> := [BuildDaily, SendDaily, MergeIntoMaster, SendMaster]

  /** Reference semantics of a list of fallible steps inside one `try`: steps
      run in order, and the first that fails is the last to run. `oks[i]` says
      whether step `i` would succeed if it ran. */
  function Attempted(steps: seq<Step>, oks: seq<bool>): (r: seq<Step>)
    requires |oks| == |steps|
    ensures |r| <= |steps| && r == steps[..|r|]
    ensures forall i :: 0 <= i < |r| - 1 ==> oks[i]
    ensures |r| < |steps| ==> |r| > 0 && !oks[|r| - 1]
    ensures |r| == |steps| <==> (forall i :: 0 <= i < |steps| - 1 ==> oks[i])
  {
    if |steps| == 0 then []
    else if !oks[0] then [steps[0]]
    else [steps[0]] + Attempted(steps[1..], oks[1..])
  }

  /** The step whose exception the `except` clause catches, if any. */
  function FirstFailure(steps: seq<Step>, oks: seq<bool>): (r: Option<Step>)
    requires |oks| == |steps|
    ensures r.None? <==> (forall i :: 0 <= i < |steps| ==> oks[i])
    ensures r.Some? ==> exists i :: 0 <= i < |steps| && !oks[i] && r.value == steps[i]
                                  && (forall j :: 0 <= j < i ==> oks[j])
  {
    if |steps| == 0 then None
    else if !oks[0] then Some(steps[0])
    else FirstFailure(steps[1..], oks[1..])
  }

  /** What the outside world does while the job runs: whether the encode
      succeeds, the sizes of the daily and master files, whether each transport
      call succeeds, and whether the copy or concatenation succeeds. */
  datatype Env = Env(
    encodeOk: bool,
    dailyBytes: nat,
    dailyTransportOk: bool,
    mergeOk: bool,
    masterBytes: nat,
    masterTransportOk: bool)

  /** Whether each step of the job would succeed in `env`. A skipped delivery
      succeeds; only a transport failure raises. */
  function StepOutcomes(cfg: Config, env: Env): (oks: seq<bool>)
    ensures |oks| == |JobSteps|
  {
    [ env.encodeOk,
      Send(cfg, env.dailyBytes, env.dailyTransportOk) != SendFailed,
      env.mergeOk,
      Send(cfg, env.masterBytes, env.masterTransportOk) != SendFailed ]
  }

  /** The steps that ran, the step that failed (caught and logged, never
      raised), the master afterwards, and the files that reached the transport. */
  datatype JobResult = JobResult(attempted: seq<Step>, failed: Option<Step>, master: Option<Video>, sent: seq<Step>)

  /** The finalize job for `day`, as run on its background thread. */
  function FinalizeJob(cfg: Config, day: Date, master: Option<Video>, env: Env): (r: JobResult)
    ensures r.failed.Some? ==> |r.attempted| > 0 && r.failed.value == r.attempted[|r.attempted| - 1]
    ensures r.failed.None? ==> r.attempted == JobSteps
    ensures forall i :: 0 <= i < |r.sent| ==> r.sent[i] in r.attempted
  {
    if !env.encodeOk then JobResult([BuildDaily], Some(BuildDaily), master, [])
    else
      var daily := Send(cfg, env.dailyBytes, env.dailyTransportOk);
      if daily == SendFailed then JobResult([BuildDaily, SendDaily], Some(SendDaily), master, [])
      else
        var sentDaily := if daily == Sent then [SendDaily] else [];
        var merged := Merge(master, [day], env.mergeOk);
        if !merged.ok then
          JobResult([BuildDaily, SendDaily, MergeIntoMaster], Some(MergeIntoMaster), master, sentDaily)
        else
          var full := Send(cfg, env.masterBytes, env.masterTransportOk);
          if full == SendFailed then JobResult(JobSteps, Some(SendMaster), merged.master, sentDaily)
          else JobResult(JobSteps, None, merged.master, sentDaily + (if full == Sent then [SendMaster] else []))
  }

  /** The job runs its steps in the fixed order and stops at the first failure:
      it agrees with the reference semantics of ordered fallible steps. */
  lemma FinalizeFollowsStepOrder(cfg: Config, day: Date, master: Option<Video>, env: Env)
    ensures FinalizeJob(cfg, day, master, env).attempted == Attempted(JobSteps, StepOutcomes(cfg, env))
    ensures FinalizeJob(cfg, day, master, env).failed == FirstFailure(JobSteps, StepOutcomes(cfg, env))
  {
    var oks := StepOutcomes(cfg, env);
    AttemptedOfJobSteps(oks);
    FirstFailureOfJobSteps(oks);
  }

  /** `Attempted` over the four job steps, unfolded. */
  lemma AttemptedOfJobSteps(oks: seq<bool>)
    requires |oks| == |JobSteps|
    ensures Attempted(JobSteps, oks)
         == if !oks[0] then [BuildDaily]
            else if !oks[1] then [BuildDaily, SendDaily]
            else if !oks[2] then [BuildDaily, SendDaily, MergeIntoMaster]
            else JobSteps
  {
    var steps1, steps2, steps3 := JobSteps[1..], JobSteps[2..], JobSteps[3..];
    var oks1, oks2, oks3 := oks[1..], oks[2..], oks[3..];
    assert steps1[1..] == steps2 && oks1[1..] == oks2;
    assert steps2[1..] == steps3 && oks2[1..] == oks3;
    assert steps3[1..] == [] && oks3[1..] == [];
    var a3 := Attempted(steps3, oks3);
    assert a3 == [SendMaster];
    var a2 := Attempted(steps2, oks2);
    assert a2 == if oks[2] then [MergeIntoMaster] + a3 else [MergeIntoMaster];
    var a1 := Attempted(steps1, oks1);
    assert a1 == if oks[1] then [SendDaily] + a2 else [SendDaily];
    assert Attempted(JobSteps, oks) == if oks[0] then [BuildDaily] + a1 else [BuildDaily];
  }

  /** `FirstFailure` over the four job steps, unfolded. */
  lemma FirstFailureOfJobSteps(oks: seq<bool>)
    requires |oks| == |JobSteps|
    ensures FirstFailure(JobSteps, oks)
         == if !oks[0] then Some(BuildDaily)
            else if !oks[1] then Some(SendDaily)
            else if !oks[2] then Some(MergeIntoMaster)
            else if !oks[3] then Some(SendMaster)
            else None
  {
    var steps1, steps2, steps3 := JobSteps[1..], JobSteps[2..], JobSteps[3..];
    var oks1, oks2, oks3 := oks[1..], oks[2..], oks[3..];
    assert steps1[1..] == steps2 && oks1[1..] == oks2;
    assert steps2[1..] == steps3 && oks2[1..] == oks3;
    assert steps3[1..] == [] && oks3[1..] == [];
    var f3 := FirstFailure(steps3, oks3);
    assert f3 == (if oks[3] then None else Some(SendMaster));
    var f2 := FirstFailure(steps2, oks2);
    assert f2 == if oks[2] then f3 else Some(MergeIntoMaster);
    var f1 := FirstFailure(steps1, oks1);
    assert f1 == if oks[1] then f2 else Some(SendDaily);
    assert FirstFailure(JobSteps, oks) == if oks[0] then f1 else Some(BuildDaily);
  }

  /** The master changes only through a merge step that ran and succeeded, and
      then it gains exactly the day's video at the end. A failure in any earlier
      step, or in the merge itself, leaves it exactly as it was. */
  lemma FinalizeMasterEffect(cfg: Config, day: Date, master: Option<Video>, env: Env)
    ensures var r := FinalizeJob(cfg, day, master, env);
      (MergeIntoMaster in r.attempted && r.failed != Some(MergeIntoMaster))
        ==> r.master == Some(Contents(master) + [day])
    ensures var r := FinalizeJob(cfg, day, master, env);
      (MergeIntoMaster !in r.attempted || r.failed == Some(MergeIntoMaster))
        ==> r.master == master
  {
  }

  /** A file reaches the transport only if the gate lets it through, and the
      master is sent only after a successful merge. */
  lemma FinalizeDeliveryGuarded(cfg: Config, day: Date, master: Option<Video>, env: Env)
    ensures var r := FinalizeJob(cfg, day, master, env);
      SendDaily in r.sent ==> Gate(cfg, env.dailyBytes) == Deliver
    ensures var r := FinalizeJob(cfg, day, master, env);
      SendMaster in r.sent ==> Gate(cfg, env.masterBytes) == Deliver && env.encodeOk && env.mergeOk
    ensures cfg.botToken == "" || cfg.chatId == "" ==> FinalizeJob(cfg, day, master, env).sent == []
  {
  }

  // ---------------------------------------------------------------------------
  // The master over successive jobs

  /** The days whose job got through the merge step, in job order. */
  function MergedDays(cfg: Config, days: seq<Date>, envs: seq<Env>): Video
    requires |envs| == |days|
  {
    if |days| == 0 then []
    else
      var merged := envs[0].encodeOk && Send(cfg, envs[0].dailyBytes, envs[0].dailyTransportOk) != SendFailed && envs[0].mergeOk;
      (if merged then [days[0]] else []) + MergedDays(cfg, days[1..], envs[1..])
  }

  /** Jobs run one after another, in dispatch order. */
  function FinalizeAll(cfg: Config, days: seq<Date>, master: Option<Video>, envs: seq<Env>): Option<Video>
    requires |envs| == |days|
  {
    if |days| == 0 then master
    else FinalizeAll(cfg, days[1..], FinalizeJob(cfg, days[0], master, envs[0]).master, envs[1..])
  }

  /** Run one after another, the jobs leave a master that shows what it showed
      before followed by exactly the days whose merge succeeded, in job order. */
  lemma {:induction false} MasterAccumulates(cfg: Config, days: seq<Date>, master: Option<Video>, envs: seq<Env>)
    requires |envs| == |days|
    ensures Contents(FinalizeAll(cfg, days, master, envs)) == Contents(master) + MergedDays(cfg, days, envs)
    decreases |days|
  {
    if |days| > 0 {
      var next := FinalizeJob(cfg, days[0], master, envs[0]).master;
      FinalizeMasterEffect(cfg, days[0], master, envs[0]);
      MasterAccumulates(cfg, days[1..], next, envs[1..]);
    }
  }

  predicate StrictlyIncreasing(days: seq<Date>) {
    forall i, j :: 0 <= i < j < |days| ==> Before(days[i], days[j])
  }

  lemma {:induction false} MergedDaysIncreasing(cfg: Config, days: seq<Date>, envs: seq<Env>)
    requires |envs| == |days| && StrictlyIncreasing(days)
    ensures StrictlyIncreasing(MergedDays(cfg, days, envs))
    ensures forall k :: 0 <= k < |MergedDays(cfg, days, envs)| ==> MergedDays(cfg, days, envs)[k] in days
    decreases |days|
  {
    if |days| > 0 {
      MergedDaysIncreasing(cfg, days[1..], envs[1..]);
      var rest := MergedDays(cfg, days[1..], envs[1..]);
      forall k | 0 <= k < |rest|
        ensures Before(days[0], rest[k])
      {
        var j :| 0 <= j < |days[1..]| && days[1..][j] == rest[k];
      }
    }
  }

  /** Starting without a master, jobs dispatched in chronological order leave a
      master whose days are strictly chronological, with no day twice. */
  lemma MasterChronological(cfg: Config, days: seq<Date>, envs: seq<Env>)
    requires |envs| == |days| && StrictlyIncreasing(days)
    ensures StrictlyIncreasing(Contents(FinalizeAll(cfg, days, None, envs)))
  {
    MasterAccumulates(cfg, days, None, envs);
    MergedDaysIncreasing(cfg, days, envs);
  }
}
