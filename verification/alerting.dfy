/**
 * The `alert_sent` flag of one track, as an edge detector: an alert is sent
 * on the first unsafe frame of every run of unsafe frames, and never again
 * until a safe frame re-arms the flag.
 */
module Alerting {

  /** The outcome of one frame for one track: whether an alert is sent, and the flag afterwards. */
  datatype Decision = Decision(fire: bool, flag: bool)

  /**
   * One frame of the alert logic. `flag` is the stored `alert_sent` value
   * (armed when true); `safe` is the frame's `is_safe`.
   */
  function AlertStep(flag: bool, safe: bool): (d: Decision)
    ensures d.fire <==> !safe && flag
    ensures d.flag == safe
  {
    if !safe then Decision(flag, false) else Decision(false, true)
  }

  /** Alerts sent over consecutive frames of one track, starting from flag `flag`. */
  function AlertCount(flag: bool, safes: seq<bool>): nat
    decreases |safes|
  {
    if |safes| == 0 then 0
    else
      var d := AlertStep(flag, safes[0]);
      (if d.fire then 1 else 0) + AlertCount(d.flag, safes[1..])
  }

  lemma AlertCountCons(flag: bool, x: bool, rest: seq<bool>)
    ensures AlertCount(flag, [x] + rest) == (if !x && flag then 1 else 0) + AlertCount(x, rest)
  {
    assert ([x] + rest)[1..] == rest;
  }

  /** The flag after consecutive frames: the last frame's safety, or the starting flag if there were none. */
  function FlagAfter(flag: bool, safes: seq<bool>): (r: bool)
    ensures r == if |safes| == 0 then flag else safes[|safes| - 1]
    decreases |safes|
  {
    if |safes| == 0 then flag else FlagAfter(AlertStep(flag, safes[0]).flag, safes[1..])
  }

  /** Frame i opens a compliance-loss episode: it is unsafe and the frame before it (or the armed start) is safe. */
  predicate RisingEdge(flag: bool, safes: seq<bool>, i: int)
    requires 0 <= i < |safes|
  {
    !safes[i] && (if i == 0 then flag else safes[i - 1])
  }

  /** Number of compliance-loss episodes: rising edges of non-compliance, counted from the last frame back. */
  function Episodes(flag: bool, safes: seq<bool>): nat
  {
    if |safes| == 0 then 0
    else Episodes(flag, safes[..|safes| - 1]) + (if RisingEdge(flag, safes, |safes| - 1) then 1 else 0)
  }

  /** Running the frames of `s` and then those of `t` is running `t` from the flag `s` left behind. */
  lemma {:induction false} AlertCountAppend(flag: bool, s: seq<bool>, t: seq<bool>)
    ensures AlertCount(flag, s + t) == AlertCount(flag, s) + AlertCount(FlagAfter(flag, s), t)
    decreases |s|
  {
    if |s| == 0 {
      assert s + t == t;
    } else {
      var d := AlertStep(flag, s[0]);
      assert (s + t)[0] == s[0];
      assert (s + t)[1..] == s[1..] + t;
      AlertCountAppend(d.flag, s[1..], t);
    }
  }

  /** The alert count is the number of compliance-loss episodes: one alert per episode. */
  lemma {:induction false} AlertCountIsEpisodes(flag: bool, safes: seq<bool>)
    ensures AlertCount(flag, safes) == Episodes(flag, safes)
    decreases |safes|
  {
    if |safes| > 0 {
      var s := safes[..|safes| - 1];
      var x := safes[|safes| - 1];
      assert safes == s + [x];
      AlertCountIsEpisodes(flag, s);
      AlertCountAppend(flag, s, [x]);
      assert [x][1..] == [];
    }
  }

  /** k >= 1 consecutive unsafe frames send exactly one alert if the flag was armed, none otherwise, and disarm it. */
  lemma {:induction false} OneAlertPerEpisode(flag: bool, u: seq<bool>)
    requires |u| >= 1
    requires forall i :: 0 <= i < |u| ==> !u[i]
    ensures AlertCount(flag, u) == if flag then 1 else 0
    ensures !FlagAfter(flag, u)
    decreases |u|
  {
    if |u| > 1 {
      OneAlertPerEpisode(false, u[1..]);
    }
  }

  /** Safe frames never send an alert. */
  lemma {:induction false} NoAlertWhileSafe(flag: bool, s: seq<bool>)
    requires forall i :: 0 <= i < |s| ==> s[i]
    ensures AlertCount(flag, s) == 0
    decreases |s|
  {
    if |s| > 0 {
      NoAlertWhileSafe(true, s[1..]);
    }
  }

  /** A safe frame re-arms the flag: the unsafe run after it sends exactly one new alert. */
  lemma ReArm(flag: bool, s: seq<bool>, u: seq<bool>)
    requires |u| >= 1
    requires forall i :: 0 <= i < |u| ==> !u[i]
    ensures AlertCount(flag, s + [true] + u) == AlertCount(flag, s) + 1
  {
    AlertCountAppend(flag, s + [true], u);
    AlertCountAppend(flag, s, [true]);
    NoAlertWhileSafe(FlagAfter(flag, s), [true]);
    OneAlertPerEpisode(true, u);
  }
}
