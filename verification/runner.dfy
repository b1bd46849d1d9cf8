/** The in-memory job runner (internal/engine/runner.go): a table of jobs and
    one progress channel per job.  A channel is modelled as the list of
    progress events sent on it; the clock is a parameter, and the ticker and
    the context's cancellation become a count of ticks before cancellation. */
module Runner {
  import opened Wrappers
  import opened GoStr

  datatype Job = Job(id: string, name: string, params: map<string, string>)

  /** A progress message; `percent` is a whole number, which the float64 of
      the source always holds here (steps of 25). */
  datatype ProgressEvent = ProgressEvent(jobId: string, message: string, percent: int, err: Option<string>)

  datatype Runner = Runner(jobs: map<string, Job>, progress: map<string, seq<ProgressEvent>>)

  /** Every progress channel is made with a buffer of four messages. */
  const ChannelCapacity: nat := 4

  const JobExists: string := "job already exists"
  const JobNotFound: string := "job not found"

  /** Every job has a progress channel and every channel a job. */
  predicate Consistent(r: Runner) {
    r.jobs.Keys == r.progress.Keys
  }

  function NewRunner(): (r: Runner)
    ensures Consistent(r) && |r.jobs| == 0
  {
    Runner(map[], map[])
  }

  /** `Enqueue`: a job without an ID is named after the clock (`now`, in
      nanoseconds); an ID already registered is refused; otherwise the job
      and an empty channel are registered under the ID. */
  function Enqueue(r: Runner, job: Job, now: int): (res: (Runner, Result<string>))
    ensures Consistent(r) ==> Consistent(res.0)
    ensures var id := if job.id == "" then Itoa(now) else job.id;
            && (id in r.jobs <==> res.1.Err?)
            && (res.1.Err? ==> res.1.msg == JobExists && res.0 == r)
            && (res.1.Ok? ==> && res.1.value == id
                              && res.0.jobs == r.jobs[id := job.(id := id)]
                              && res.0.progress == r.progress[id := []])
  {
    var id := if job.id == "" then Itoa(now) else job.id;
    if id in r.jobs then (r, Err(JobExists))
    else (Runner(r.jobs[id := job.(id := id)], r.progress[id := []]), Ok(id))
  }

  /** The last message `Cancel` sends before it closes a channel. */
  function CancelMessage(id: string): ProgressEvent {
    ProgressEvent(id, "cancelled", 0, Some("cancelled"))
  }

  /** `Cancel`: for a job with a channel, send the cancellation message,
      close the channel and forget the job; otherwise "job not found".
      The runner forgets the channel, but a receiver that took it from
      `Progress` earlier still reads to the close, so a success carries the
      closed channel's whole contents: what was sent on it, then the
      cancellation message. */
  function Cancel(r: Runner, id: string): (res: (Runner, Result<seq<ProgressEvent>>))
    ensures Consistent(r) ==> Consistent(res.0)
    ensures res.1.Ok? <==> id in r.progress
    ensures res.1.Err? ==> res.1.msg == JobNotFound && res.0 == r
    ensures res.1.Ok? ==> && id !in res.0.jobs && id !in res.0.progress
                          && res.1.value == r.progress[id] + [CancelMessage(id)]
                          && (forall k :: k in r.jobs && k != id ==> k in res.0.jobs && res.0.jobs[k] == r.jobs[k])
                          && (forall k :: k in r.progress && k != id ==> k in res.0.progress && res.0.progress[k] == r.progress[k])
  {
    if id in r.progress then (Runner(r.jobs - {id}, r.progress - {id}), Ok(r.progress[id] + [CancelMessage(id)]))
    else (r, Err(JobNotFound))
  }

  /** `Progress`: the channel of a known job. */
  function Progress(r: Runner, id: string): (res: Result<seq<ProgressEvent>>)
    ensures res.Ok? <==> id in r.progress
    ensures res.Err? ==> res.msg == JobNotFound
    ensures res.Ok? ==> res.value == r.progress[id]
  {
    if id in r.progress then Ok(r.progress[id]) else Err(JobNotFound)
  }

  /** The simulated work of `Run`: each tick adds 25 percent, capped at 100,
      until 100 is reached; `cancelAfter` is the number of ticks before the
      context is done, if it ever is.  Returns the percentages reported on
      each tick and whether the context ended the work. */
  method Ticks(cancelAfter: Option<nat>) returns (percents: seq<int>, cancelled: bool)
    ensures cancelled <==> cancelAfter.Some? && cancelAfter.value < 4
    ensures !cancelled ==> percents == [25, 50, 75, 100]
    ensures cancelled ==> percents == [25, 50, 75, 100][..cancelAfter.value]
  {
    percents := [];
    var progress := 0;
    var ticks := 0;
    while progress < 100
      invariant 0 <= ticks <= 4 && progress == 25 * ticks
      invariant percents == [25, 50, 75, 100][..ticks]
      invariant cancelAfter.Some? ==> ticks <= cancelAfter.value
      decreases 100 - progress
    {
      if cancelAfter.Some? && cancelAfter.value == ticks {
        return percents, true;
      }
      progress := progress + 25;
      if progress > 100 {
        progress := 100;
      }
      ticks := ticks + 1;
      percents := percents + [progress];
    }
    return percents, false;
  }

  /** What `Run` sends first: "started" at 0 percent, unless the channel's
      buffer already holds `unread` messages up to its capacity, in which
      case the send is skipped rather than waited on. */
  function Started(id: string, unread: nat): (m: seq<ProgressEvent>)
    ensures |m| <= 1
    ensures m == [] <==> unread >= ChannelCapacity
  {
    if unread < ChannelCapacity then [ProgressEvent(id, "started", 0, None)] else []
  }

  /** `Run`: an unknown job is "job not found"; otherwise the job's channel
      receives "started" at 0 percent (when its buffer, holding `unread`
      messages nobody has received yet, has room), then the job's name at
      each tick, and on cancellation a "cancelled" message carrying the
      context's error (`ctxErr`), which `Run` returns. */
  method Run(r: Runner, id: string, unread: nat, cancelAfter: Option<nat>, ctxErr: string)
    returns (r': Runner, err: Option<string>)
    ensures !(id in r.jobs && id in r.progress) ==> r' == r && err == Some(JobNotFound)
    ensures id in r.jobs && id in r.progress ==>
              && r'.jobs == r.jobs && r'.progress.Keys == r.progress.Keys
              && (forall k :: k in r.progress && k != id ==> r'.progress[k] == r.progress[k])
              && (err.None? <==> (cancelAfter.None? || cancelAfter.value >= 4))
              && (err.Some? ==> err.value == ctxErr)
    ensures id in r.jobs && id in r.progress && err.None? ==>
              r'.progress[id] == r.progress[id] + Started(id, unread)
                                 + Reports(id, r.jobs[id].name, [25, 50, 75, 100])
    ensures id in r.jobs && id in r.progress && err.Some? ==>
              r'.progress[id] == r.progress[id] + Started(id, unread)
                                 + Reports(id, r.jobs[id].name, [25, 50, 75, 100][..cancelAfter.value])
                                 + [ProgressEvent(id, "cancelled", 25 * cancelAfter.value, Some(ctxErr))]
  {
    if !(id in r.jobs && id in r.progress) {
      return r, Some(JobNotFound);
    }
    var name := r.jobs[id].name;
    var sent := r.progress[id] + Started(id, unread);
    var percents, cancelled := Ticks(cancelAfter);
    sent := sent + Reports(id, name, percents);
    if cancelled {
      sent := sent + [ProgressEvent(id, "cancelled", 25 * cancelAfter.value, Some(ctxErr))];
      err := Some(ctxErr);
    } else {
      err := None;
    }
    r' := r.(progress := r.progress[id := sent]);
  }

  /** The tick messages: the job's name at each percentage. */
  function Reports(id: string, name: string, percents: seq<int>): (r: seq<ProgressEvent>)
    ensures |r| == |percents|
    ensures forall i :: 0 <= i < |r| ==> r[i] == ProgressEvent(id, name, percents[i], None)
  {
    seq(|percents|, i requires 0 <= i < |percents| => ProgressEvent(id, name, percents[i], None))
  }

  /** After a successful `Enqueue`, `Progress` finds the job's (empty)
      channel. */
  lemma EnqueueThenProgress(r: Runner, job: Job, now: int)
    requires Enqueue(r, job, now).1.Ok?
    ensures Progress(Enqueue(r, job, now).0, Enqueue(r, job, now).1.value) == Ok([])
  {
  }

  /** Enqueueing the same ID twice fails the second time and leaves the
      runner as the first call made it. */
  lemma EnqueueTwice(r: Runner, job: Job, now: int, later: int)
    requires job.id != "" && Enqueue(r, job, now).1.Ok?
    ensures var r1 := Enqueue(r, job, now).0;
            Enqueue(r1, job, later) == (r1, Err(JobExists))
  {
  }

  /** After a successful `Cancel`, the job is gone: cancelling again and
      asking for progress both fail with "job not found". */
  lemma CancelForgets(r: Runner, id: string)
    requires Consistent(r) && Cancel(r, id).1.Ok?
    ensures var r1 := Cancel(r, id).0;
            Cancel(r1, id) == (r1, Err(JobNotFound)) && Progress(r1, id) == Err(JobNotFound)
  {
  }

  /** A receiver that took a job's channel from `Progress` reads, before
      the close, everything sent on it so far and then the cancellation
      message. */
  lemma ProgressThenCancel(r: Runner, id: string)
    requires Progress(r, id).Ok?
    ensures Cancel(r, id).1 == Ok(Progress(r, id).value + [CancelMessage(id)])
  {
  }

  /** Enqueue followed by Cancel of the new ID restores the table. */
  lemma {:induction false} EnqueueCancel(r: Runner, job: Job, now: int)
    requires Consistent(r) && Enqueue(r, job, now).1.Ok?
    ensures Cancel(Enqueue(r, job, now).0, Enqueue(r, job, now).1.value).0 == r
  {
    var id := Enqueue(r, job, now).1.value;
    var r1 := Enqueue(r, job, now).0;
    assert id !in r.jobs && id !in r.progress;
    assert r1.jobs - {id} == r.jobs;
    assert r1.progress - {id} == r.progress;
  }
}
