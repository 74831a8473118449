/**
 * A series of `process_frame` calls on one instance: the alert law lifted
 * from one frame to a whole run of frames.
 */
module Series {
  import opened Optional
  import opened TrackStore
  import opened Detections
  import opened Compliance
  import opened Alerting
  import opened PpeLogic
  import opened FrameLaws

  /** Successive frames processed by one instance, each starting from the state the previous left. */
  function Run(st: State, frames: seq<seq<Detection>>): (rs: seq<FrameResult>)
    requires Valid(st)
    ensures |rs| == |frames|
    decreases |frames|
  {
    if |frames| == 0 then []
    else
      var r := ProcessFrame(st, frames[0]);
      [r] + Run(r.state, frames[1..])
  }

  /** The safety of track `pid` in one frame: one entry when the frame reports it, none when it does not. */
  function SafetyIn(r: FrameResult, pid: TrackId): (s: seq<bool>)
    ensures |s| <= 1
    ensures |s| == 1 <==> ReportFor(r.detections, pid).Some?
    ensures |s| == 1 ==> s[0] == IsSafe(ReportFor(r.detections, pid).value.ppeStatus)
  {
    match ReportFor(r.detections, pid)
    case Some(rep) => [IsSafe(rep.ppeStatus)]
    case None => []
  }

  /** The safety of track `pid` over a run, one entry per frame that reports it. */
  function SafetyOf(rs: seq<FrameResult>, pid: TrackId): (s: seq<bool>)
    ensures |s| <= |rs|
    decreases |rs|
  {
    if |rs| == 0 then [] else SafetyIn(rs[0], pid) + SafetyOf(rs[1..], pid)
  }

  /** Alerts naming track `pid` over a run. */
  function TotalAlertsFor(rs: seq<FrameResult>, pid: TrackId): nat
    decreases |rs|
  {
    if |rs| == 0 then 0 else AlertsFor(AlertList(rs[0]), pid) + TotalAlertsFor(rs[1..], pid)
  }

  /** Track `pid` is at most one of the accepted persons of every frame: present once, or absent. */
  ghost predicate AtMostOnceEach(frames: seq<seq<Detection>>, pid: TrackId)
  {
    forall i :: 0 <= i < |frames| ==> Occurrences(Persons(frames[i]), pid) <= 1
  }

  /** Track `pid` is an accepted person of some frame. */
  ghost predicate SeenIn(frames: seq<seq<Detection>>, pid: TrackId)
  {
    exists i :: 0 <= i < |frames| && Occurrences(Persons(frames[i]), pid) == 1
  }

  /** A run, unfolded at its first frame. */
  lemma RunStep(st: State, frames: seq<seq<Detection>>, pid: TrackId)
    requires Valid(st) && |frames| > 0
    ensures var r := ProcessFrame(st, frames[0]);
            var rest := Run(r.state, frames[1..]);
            && TotalAlertsFor(Run(st, frames), pid) == AlertsFor(AlertList(r), pid) + TotalAlertsFor(rest, pid)
            && SafetyOf(Run(st, frames), pid) == SafetyIn(r, pid) + SafetyOf(rest, pid)
  {
    var r := ProcessFrame(st, frames[0]);
    var rs := Run(st, frames);
    assert rs[0] == r;
    assert rs[1..] == Run(r.state, frames[1..]);
  }

  lemma AtMostOnceTail(frames: seq<seq<Detection>>, pid: TrackId)
    requires |frames| > 0 && AtMostOnceEach(frames, pid)
    ensures AtMostOnceEach(frames[1..], pid)
  {
    forall i | 0 <= i < |frames[1..]| ensures Occurrences(Persons(frames[1..][i]), pid) <= 1 {
      assert frames[1..][i] == frames[i + 1];
    }
  }

  /**
   * Over a run, the track's alerts are those of the edge detector fed with its
   * safety in the frames that report it; frames without it leave the flag as
   * it was and add nothing.
   */
  lemma {:induction false} RunFollowsAlertStep(st: State, frames: seq<seq<Detection>>, pid: TrackId)
    requires Valid(st)
    requires AtMostOnceEach(frames, pid)
    ensures TotalAlertsFor(Run(st, frames), pid) == AlertCount(FlagOf(st.alertSent, pid), SafetyOf(Run(st, frames), pid))
    decreases |frames|
  {
    if |frames| > 0 {
      var r := ProcessFrame(st, frames[0]);
      var rest := SafetyOf(Run(r.state, frames[1..]), pid);
      RunStep(st, frames, pid);
      AtMostOnceTail(frames, pid);
      RunFollowsAlertStep(r.state, frames[1..], pid);
      if Occurrences(Persons(frames[0]), pid) == 1 {
        FrameAlertLaw(st, frames[0], pid);
        var safe := IsSafe(ReportFor(r.detections, pid).value.ppeStatus);
        assert SafetyIn(r, pid) == [safe];
        AlertCountCons(FlagOf(st.alertSent, pid), safe, rest);
      } else {
        FrameAbsentLaw(st, frames[0], pid);
        assert SafetyIn(r, pid) + rest == rest;
      }
    }
  }

  /**
   * One alert per compliance-loss episode: over any run in which the track is
   * at most one accepted person of each frame, it is alerted exactly as many
   * times as its safety, read over the frames that report it, goes from safe
   * (or the armed start) to unsafe.
   */
  lemma EpisodeLaw(st: State, frames: seq<seq<Detection>>, pid: TrackId)
    requires Valid(st)
    requires AtMostOnceEach(frames, pid)
    ensures TotalAlertsFor(Run(st, frames), pid) == Episodes(FlagOf(st.alertSent, pid), SafetyOf(Run(st, frames), pid))
  {
    RunFollowsAlertStep(st, frames, pid);
    AlertCountIsEpisodes(FlagOf(st.alertSent, pid), SafetyOf(Run(st, frames), pid));
  }

  /** A track seen in some frame has at least one entry in its safety over the run. */
  lemma {:induction false} SeenHasSafety(st: State, frames: seq<seq<Detection>>, pid: TrackId)
    requires Valid(st)
    requires AtMostOnceEach(frames, pid) && SeenIn(frames, pid)
    ensures |SafetyOf(Run(st, frames), pid)| > 0
    decreases |frames|
  {
    var r := ProcessFrame(st, frames[0]);
    RunStep(st, frames, pid);
    if Occurrences(Persons(frames[0]), pid) == 1 {
      FrameAlertLaw(st, frames[0], pid);
    } else {
      var i :| 0 <= i < |frames| && Occurrences(Persons(frames[i]), pid) == 1;
      assert frames[1..][i - 1] == frames[i];
      AtMostOnceTail(frames, pid);
      SeenHasSafety(r.state, frames[1..], pid);
    }
  }

  /**
   * A run in which the track appears, and is unsafe in every frame that
   * reports it, yields exactly one alert for a track whose flag is armed (in
   * particular a never-seen track), and none for one already alerted; frames
   * in between that do not show it do not re-arm it.
   */
  lemma UnsafeRunAlertsOnce(st: State, frames: seq<seq<Detection>>, pid: TrackId)
    requires Valid(st)
    requires AtMostOnceEach(frames, pid) && SeenIn(frames, pid)
    requires true !in SafetyOf(Run(st, frames), pid)
    ensures TotalAlertsFor(Run(st, frames), pid) == if FlagOf(st.alertSent, pid) then 1 else 0
  {
    var u := SafetyOf(Run(st, frames), pid);
    SeenHasSafety(st, frames, pid);
    RunFollowsAlertStep(st, frames, pid);
    forall i | 0 <= i < |u| ensures !u[i] {
      assert u[i] in u;
    }
    OneAlertPerEpisode(FlagOf(st.alertSent, pid), u);
  }
}
