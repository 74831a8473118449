/**
 * `PPELogic.process_frame` without its drawing calls: filter and split one
 * frame's detections, push containment evidence per (person, item), decide
 * each person's PPE status from the rolling averages, and run the alert flag.
 */
module PpeLogic {
  import opened Optional
  import opened Geometry
  import opened RingBuffer
  import opened TrackStore
  import opened Detections
  import opened Compliance
  import opened Alerting

  /** The mutable part of a `PPELogic` instance: `score_buffers` and `alert_sent`. */
  datatype State = State(buffers: Buffers, alertSent: map<TrackId, bool>)

  /** A freshly constructed instance: no buffers, no flags. */
  const Initial: State := State(map[], map[])

  /** The invariant every reachable state satisfies. */
  ghost predicate Valid(st: State)
  {
    WellFormed(st.buffers)
  }

  /** `alert_sent[pid]`, whose default for a never-seen track is True (armed). */
  function FlagOf(flags: map<TrackId, bool>, pid: TrackId): (r: bool)
    ensures pid !in flags ==> r
    ensures pid in flags ==> r == flags[pid]
  {
    if pid in flags then flags[pid] else true
  }

  const Violation: string := "violation"

  /** One entry of `detections_json`. */
  datatype Report = Report(personId: TrackId, avgScores: map<ClassId, real>, ppeStatus: Status, bbox: Box)

  /** One entry of `alerts`. */
  datatype Alert = Alert(personId: TrackId, status: string, ppeStatus: Status, bbox: Box)

  /** What `process_frame` returns besides the drawn image, with the state it leaves behind. */
  datatype FrameResult = FrameResult(state: State, detections: seq<Report>, alerts: Option<seq<Alert>>)

  /** What handling one person produces. */
  datatype PersonOutcome = PersonOutcome(state: State, report: Report, alert: Option<Alert>)

  /** The "violation" alert raised for a report: its person id, status and box. */
  function Raise(rep: Report): Alert
  {
    Alert(rep.personId, Violation, rep.ppeStatus, rep.bbox)
  }

  /** The alert of one person as a list of zero or one element. */
  function AlertOf(o: PersonOutcome): seq<Alert>
  {
    if o.alert.Some? then [o.alert.value] else []
  }

  /** What handling a list of persons produces. */
  datatype FrameStep = FrameStep(state: State, reports: seq<Report>, alerts: seq<Alert>)

  /** Track ids of a person list. */
  function PidsOf(persons: seq<Person>): set<TrackId>
    decreases |persons|
  {
    if |persons| == 0 then {} else {persons[0].pid} + PidsOf(persons[1..])
  }

  /** Class ids of an item list. */
  function ClassesOf(items: seq<Item>): set<ClassId>
    decreases |items|
  {
    if |items| == 0 then {} else {items[0].cls} + ClassesOf(items[1..])
  }

  /** The containment observations one person box receives for class `cls`, in item order. */
  function Indicators(person: Box, items: seq<Item>, cls: ClassId): (xs: seq<real>)
    ensures AllBinary(xs)
    ensures |xs| <= |items|
    decreases |items|
  {
    if |items| == 0 then []
    else
      var rest := Indicators(person, items[1..], cls);
      if items[0].cls == cls then [Indicator(items[0].box, person)] + rest else rest
  }

  /** The inner loop over `others` for one person: one push per item into (pid, item class). */
  function RecordItems(b: Buffers, pid: TrackId, person: Box, items: seq<Item>): (r: Buffers)
    ensures WellFormed(b) ==> WellFormed(r)
    ensures forall q :: q != pid ==> (q in r <==> q in b) && (q in b ==> r[q] == b[q])
    decreases |items|
  {
    if |items| == 0 then b
    else RecordItems(Record(b, pid, items[0].cls, Indicator(items[0].box, person)), pid, person, items[1..])
  }

  /**
   * After the inner loop, the buffer of (pid, c) has received exactly the
   * containment observations of the items of class c, in item order; every
   * other track's buffers are untouched.
   */
  lemma {:induction false} RecordItemsBuffers(b: Buffers, pid: TrackId, person: Box, items: seq<Item>)
    ensures forall p, c ::
              BufferOf(RecordItems(b, pid, person, items), p, c) ==
              (if p == pid then PushAll(BufferOf(b, p, c), Indicators(person, items, c)) else BufferOf(b, p, c))
    decreases |items|
  {
    if |items| > 0 {
      var x := Indicator(items[0].box, person);
      var b1 := Record(b, pid, items[0].cls, x);
      RecordItemsBuffers(b1, pid, person, items[1..]);
      forall p, c
        ensures BufferOf(RecordItems(b, pid, person, items), p, c) ==
                (if p == pid then PushAll(BufferOf(b, p, c), Indicators(person, items, c)) else BufferOf(b, p, c))
      {
        if p == pid && c == items[0].cls {
          var rest := Indicators(person, items[1..], c);
          assert Indicators(person, items, c) == [x] + rest;
          assert ([x] + rest)[1..] == rest;
        }
      }
    }
  }

  /** A class that no accepted item has receives no observation. */
  lemma {:induction false} IndicatorsOfAbsentClass(person: Box, items: seq<Item>, c: ClassId)
    requires c !in ClassesOf(items)
    ensures Indicators(person, items, c) == []
    decreases |items|
  {
    if |items| > 0 {
      IndicatorsOfAbsentClass(person, items[1..], c);
    }
  }

  /** One iteration of the loop over persons: evidence, averages, status, alert. */
  function ProcessPerson(st: State, p: Person, items: seq<Item>): (o: PersonOutcome)
    requires Valid(st)
    ensures Valid(o.state)
    ensures o.state.buffers == RecordItems(st.buffers, p.pid, p.box, items)
    ensures o.report.personId == p.pid && o.report.bbox == p.box
    ensures o.report.avgScores == Averages(o.state.buffers, p.pid)[PersonClass := 1.0]
    ensures PersonClass in o.report.avgScores && o.report.avgScores[PersonClass] == 1.0
    ensures forall c :: c in o.report.avgScores ==> 0.0 <= o.report.avgScores[c] <= 1.0
    ensures o.report.ppeStatus == Decide(Averages(o.state.buffers, p.pid))
    ensures o.alert.Some? <==> !IsSafe(o.report.ppeStatus) && FlagOf(st.alertSent, p.pid)
    ensures o.alert.Some? ==> o.alert.value == Raise(o.report)
    ensures p.pid in o.state.alertSent && o.state.alertSent[p.pid] == IsSafe(o.report.ppeStatus)
    ensures forall q :: q != p.pid ==> (q in o.state.alertSent <==> q in st.alertSent) &&
                                       (q in st.alertSent ==> o.state.alertSent[q] == st.alertSent[q])
    ensures forall q :: q != p.pid ==> (q in o.state.buffers <==> q in st.buffers) &&
                                       (q in st.buffers ==> o.state.buffers[q] == st.buffers[q])
  {
    var b := RecordItems(st.buffers, p.pid, p.box, items);
    var avgs := Averages(b, p.pid)[PersonClass := 1.0];
    PersonScoreIrrelevant(Averages(b, p.pid), 1.0);
    var status := Decide(avgs);
    var d := AlertStep(FlagOf(st.alertSent, p.pid), IsSafe(status));
    var report := Report(p.pid, avgs, status, p.box);
    PersonOutcome(State(b, st.alertSent[p.pid := d.flag]), report, if d.fire then Some(Raise(report)) else None)
  }

  /** The loop over persons, in detection order, threading the state. */
  function ProcessPersons(st: State, persons: seq<Person>, items: seq<Item>): (r: FrameStep)
    requires Valid(st)
    ensures Valid(r.state)
    ensures |r.reports| == |persons|
    ensures |r.alerts| <= |persons|
    decreases |persons|
  {
    if |persons| == 0 then FrameStep(st, [], [])
    else
      var o := ProcessPerson(st, persons[0], items);
      var rest := ProcessPersons(o.state, persons[1..], items);
      FrameStep(rest.state, [o.report] + rest.reports, AlertOf(o) + rest.alerts)
  }

  /** `process_frame`: the new state, `detections_json`, and the alert list or None when it is empty. */
  function ProcessFrame(st: State, dets: seq<Detection>): (r: FrameResult)
    requires Valid(st)
    ensures Valid(r.state)
    ensures |r.detections| == |Persons(dets)|
    ensures r.alerts.Some? ==> 0 < |r.alerts.value| <= |r.detections|
  {
    var s := ProcessPersons(st, Persons(dets), Items(dets));
    FrameResult(s.state, s.reports, if |s.alerts| == 0 then None else Some(s.alerts))
  }

  /** The flattened alert list of a frame (empty when the source returns None). */
  function AlertList(r: FrameResult): seq<Alert>
  {
    match r.alerts
    case None => []
    case Some(a) => a
  }
}
