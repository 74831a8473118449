/**
 * A person wearing only a helmet: the first frame concretely, and any run of
 * frames without vest evidence.
 */
module Scenarios {
  import opened Optional
  import opened Geometry
  import opened RingBuffer
  import opened TrackStore
  import opened Detections
  import opened Compliance
  import opened PpeLogic
  import opened FrameLaws
  import opened Series

  /** Person track 1, box (0, 0)-(100, 200). */
  const Worker: Detection := Detection(PersonClass, 0.9, RealBox(0.0, 0.0, 100.0, 200.0), Some(1))

  /** A helmet strictly inside the worker's box. */
  const Hat: Detection := Detection(Helmet, 0.8, RealBox(10.0, 10.0, 50.5, 50.9), None)

  /** A helmet detection below its 0.5 threshold. */
  const FaintHat: Detection := Detection(Helmet, 0.45, RealBox(10.0, 10.0, 50.0, 50.0), None)

  const WorkerBox: Box := Box(0, 0, 100, 200)
  const HatBox: Box := Box(10, 10, 50, 50)
  const HelmetOnly: Status := Status(true, false, false)

  lemma SplitHelmetFrame()
    ensures Persons([Worker, Hat]) == [Person(1, WorkerBox)]
    ensures Items([Worker, Hat]) == [Item(Helmet, HatBox)]
  {
    assert [Worker, Hat][1..] == [Hat];
    assert [Hat][1..] == [];
    assert ToIntBox(Worker.xyxy) == WorkerBox;
    assert ToIntBox(Hat.xyxy) == HatBox;
  }

  /**
   * First frame of a fresh instance: the worker's helmet is "yes", vest and
   * boots "no", and the violation is alerted at once.
   */
  lemma HelmetOnlyFirstFrame()
    ensures var r := ProcessFrame(Initial, [Worker, Hat]);
            && r.detections == [Report(1, map[Helmet := 1.0, PersonClass := 1.0], HelmetOnly, WorkerBox)]
            && r.alerts == Some([Alert(1, Violation, HelmetOnly, WorkerBox)])
  {
    SplitHelmetFrame();
    var items := [Item(Helmet, HatBox)];
    var b := RecordItems(map[], 1, WorkerBox, items);
    assert Indicator(HatBox, WorkerBox) == 1.0;
    assert Push([], 1.0) == [1.0];
    assert items[1..] == [];
    var b1 := Record(map[], 1, Helmet, 1.0);
    assert RecordItems(b1, 1, WorkerBox, []) == b1;
    assert b == b1;
    assert b == map[1 := map[Helmet := [1.0]]];
    assert [1.0][..0] == [];
    assert Average([1.0]) == 1.0;
    var avgs := Averages(b, 1)[PersonClass := 1.0];
    assert avgs == map[Helmet := 1.0, PersonClass := 1.0];
    assert Decide(avgs) == HelmetOnly;
    var o := ProcessPerson(Initial, Person(1, WorkerBox), items);
    assert o.report == Report(1, avgs, HelmetOnly, WorkerBox);
    assert o.alert == Some(Alert(1, Violation, HelmetOnly, WorkerBox));
    Unfold(Initial, [Person(1, WorkerBox)], items);
    var step := ProcessPersons(Initial, [Person(1, WorkerBox)], items);
    assert [Person(1, WorkerBox)][1..] == [];
    assert step.reports == [o.report];
    assert step.alerts == [Alert(1, Violation, HelmetOnly, WorkerBox)];
  }

  /** The helmet below its threshold changes nothing: the frame is processed as if it were absent. */
  lemma FaintHatIgnored()
    ensures ProcessFrame(Initial, [Worker, FaintHat, Hat]) == ProcessFrame(Initial, [Worker, Hat])
  {
    RejectedIgnored([Worker], FaintHat, [Hat]);
    assert [Worker] + [FaintHat] + [Hat] == [Worker, FaintHat, Hat];
    assert [Worker] + [Hat] == [Worker, Hat];
  }

  /** A track with no vest observation at all is not safe. */
  lemma NoVestNotSafe(b: Buffers, pid: TrackId)
    requires WellFormed(b)
    requires BufferOf(b, pid, Vest) == []
    ensures !IsSafe(Decide(Averages(b, pid)))
  {
    ScoreIsFraction(b, pid, Vest);
    ScoreIsFraction(b, pid, NoVest);
    var n := BufferOf(b, pid, NoVest);
    if |n| > 0 {
      assert Ones(n) as real / |n| as real >= 0.0;
    }
  }

  /**
   * One frame without an accepted vest keeps a track without vest evidence
   * so, and reports it unsafe if it reports it at all.
   */
  lemma NoVestFrame(st: State, dets: seq<Detection>, pid: TrackId)
    requires Valid(st)
    requires Occurrences(Persons(dets), pid) <= 1
    requires BufferOf(st.buffers, pid, Vest) == []
    requires Vest !in ClassesOf(Items(dets))
    ensures BufferOf(ProcessFrame(st, dets).state.buffers, pid, Vest) == []
    ensures true !in SafetyIn(ProcessFrame(st, dets), pid)
  {
    var r := ProcessFrame(st, dets);
    if Occurrences(Persons(dets), pid) == 1 {
      FrameTrackLaw(st, dets, pid);
      var rep := ReportFor(r.detections, pid).value;
      IndicatorsOfAbsentClass(rep.bbox, Items(dets), Vest);
      NoVestNotSafe(r.state.buffers, pid);
    } else {
      FrameAbsentLaw(st, dets, pid);
    }
  }

  /** In a run whose frames carry no accepted vest, a track without vest evidence is unsafe in every frame that reports it. */
  lemma {:induction false} NoVestUnsafeThroughout(st: State, frames: seq<seq<Detection>>, pid: TrackId)
    requires Valid(st)
    requires AtMostOnceEach(frames, pid)
    requires BufferOf(st.buffers, pid, Vest) == []
    requires forall i :: 0 <= i < |frames| ==> Vest !in ClassesOf(Items(frames[i]))
    ensures true !in SafetyOf(Run(st, frames), pid)
    decreases |frames|
  {
    if |frames| > 0 {
      var r := ProcessFrame(st, frames[0]);
      RunStep(st, frames, pid);
      NoVestFrame(st, frames[0], pid);
      AtMostOnceTail(frames, pid);
      forall i | 0 <= i < |frames[1..]| ensures Vest !in ClassesOf(Items(frames[1..][i])) {
        assert frames[1..][i] == frames[i + 1];
      }
      NoVestUnsafeThroughout(r.state, frames[1..], pid);
    }
  }

  /**
   * A track that a fresh instance sees in at least one frame, never with a
   * vest, is alerted exactly once over the whole run, at its first sighting,
   * however many frames do or do not show it afterwards.
   */
  lemma NoVestRunAlertsOnce(frames: seq<seq<Detection>>, pid: TrackId)
    requires AtMostOnceEach(frames, pid) && SeenIn(frames, pid)
    requires forall i :: 0 <= i < |frames| ==> Vest !in ClassesOf(Items(frames[i]))
    ensures TotalAlertsFor(Run(Initial, frames), pid) == 1
  {
    EmptyWellFormed();
    NoVestUnsafeThroughout(Initial, frames, pid);
    UnsafeRunAlertsOnce(Initial, frames, pid);
  }

  /**
   * A worker who leaves the view for a frame and comes back, still without
   * PPE, is not alerted a second time: the flag is cleared only by a frame
   * that reports the worker safe.
   */
  lemma LeaveAndReturnAlertsOnce()
    ensures TotalAlertsFor(Run(Initial, [[Worker], [], [Worker]]), 1) == 1
  {
    var frames: seq<seq<Detection>> := [[Worker], [], [Worker]];
    assert [Worker][1..] == [];
    assert ToIntBox(Worker.xyxy) == WorkerBox;
    assert Persons([Worker]) == [Person(1, WorkerBox)] && Items([Worker]) == [];
    assert Occurrences(Persons(frames[0]), 1) == 1;
    NoVestRunAlertsOnce(frames, 1);
  }
}
