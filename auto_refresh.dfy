/** The "Auto Refresh" button of the job status tab: one module-level interval
    handle, toggled by each press. A press while an interval is armed clears
    it; a press while none is armed arms one that re-reads the typed job id's
    status every `IntervalMs`, unless no job id is typed. The host's timer
    table is part of the state, so that "never two pollers" is a statement
    about the intervals that exist, not only about the handle. */
module AutoRefresh {
  import opened Common

  const IntervalMs: nat := 3000
  const StartLabel := "Auto Refresh"
  const StopLabel := "Stop Auto Refresh"
  const MissingJobId := "Please enter a Job ID first"

  /** What one press did: cleared the interval, armed one that polls a job
      id every `periodMs` milliseconds, or refused with a toast because the
      job id field is empty. */
  datatype Press = Stopped | Started(jobId: string, periodMs: nat) | NeedsJobId(toast: string)

  class Refresher {
    /** `autoRefreshInterval`: `null`, or the handle `setInterval` returned. */
    var handle: Option<nat>
    /** The intervals this module armed and has not cleared, each with the
        job id its callback polls. */
    var timers: map<nat, string>
    /** The handle the host's `setInterval` returns next (handles are
        positive, so an armed handle is truthy). */
    var nextHandle: nat
    /** The button's text. */
    var buttonText: string

    /** The handle names the one live interval, or there is none; the buttonText
        says which. */
    ghost predicate Valid()
      reads this
    {
      && nextHandle > 0
      && (handle.None? ==> timers == map[])
      && (handle.Some? ==> timers.Keys == {handle.value})
      && (forall h :: h in timers ==> 0 < h < nextHandle)
      && (buttonText == if handle.Some? then StopLabel else StartLabel)
    }

    predicate Active()
      reads this
    {
      handle.Some?
    }

    /** The empty handle of the module's `let` declaration. The button's
        first label comes from the page markup, which is not part of this
        model; it is taken to be `StartLabel`. */
    constructor ()
      ensures Valid() && !Active() && timers == map[] && buttonText == StartLabel
    {
      handle := None;
      timers := map[];
      nextHandle := 1;
      buttonText := StartLabel;
    }

    /** `autoRefresh()`, with `jobIdField` the value of the job id input. */
    method Toggle(jobIdField: string) returns (p: Press)
      requires Valid()
      modifies this
      ensures Valid()
      ensures old(handle).Some? ==>
        p == Stopped && handle == None && timers == map[] && nextHandle == old(nextHandle)
      ensures old(handle).None? && jobIdField == "" ==>
        p == NeedsJobId(MissingJobId) && handle == old(handle) && timers == old(timers)
        && nextHandle == old(nextHandle) && buttonText == old(buttonText)
      ensures old(handle).None? && jobIdField != "" ==>
        && p == Started(jobIdField, IntervalMs)
        && handle == Some(old(nextHandle))
        && timers == map[old(nextHandle) := jobIdField]
        && nextHandle == old(nextHandle) + 1
      ensures |timers| <= 1
    {
      if handle.Some? {
        timers := timers - {handle.value};
        handle := None;
        buttonText := StartLabel;
        p := Stopped;
      } else {
        if jobIdField == "" {
          p := NeedsJobId(MissingJobId);
          return;
        }
        var h := nextHandle;
        timers := timers[h := jobIdField];
        nextHandle := nextHandle + 1;
        handle := Some(h);
        buttonText := StopLabel;
        p := Started(jobIdField, IntervalMs);
      }
      LiveIntervalsAtMostOne(this);
    }

    /** The job ids whose status is re-read when the interval period
        elapses: one request per period while armed, none otherwise. */
    method PollsPerTick() returns (jobs: seq<string>)
      requires Valid()
      ensures |jobs| <= 1
      ensures |jobs| == 1 <==> Active()
      ensures forall j :: j in jobs <==> j in timers.Values
    {
      if handle.Some? {
        jobs := [timers[handle.value]];
      } else {
        jobs := [];
      }
    }
  }

  /** At most one interval of this module is ever live. */
  lemma LiveIntervalsAtMostOne(r: Refresher)
    requires r.Valid()
    ensures |r.timers| <= 1
  {
    if r.handle.Some? {
      assert r.timers.Keys == {r.handle.value};
    }
  }

  /** Pressing twice with a job id typed arms one interval and then clears
      it: the toggle never re-arms on top of a live interval. */
  method PressTwice(r: Refresher, jobId: string) returns (first: Press, second: Press)
    requires r.Valid() && !r.Active() && jobId != ""
    modifies r
    ensures first == Started(jobId, IntervalMs) && second == Stopped
    ensures r.Valid() && !r.Active() && r.timers == map[]
  {
    first := r.Toggle(jobId);
    second := r.Toggle(jobId);
  }
}
