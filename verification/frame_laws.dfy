/**
 * Properties of one call of `process_frame` and of a series of calls:
 * output shape, alerts only for unsafe persons, frame-local isolation of the
 * state, the per-track alert law, and one alert per compliance-loss episode.
 */
module FrameLaws {
  import opened Optional
  import opened Geometry
  import opened RingBuffer
  import opened TrackStore
  import opened Detections
  import opened Compliance
  import opened Alerting
  import opened PpeLogic

  /** How many persons of the list carry track id `pid`. */
  function Occurrences(persons: seq<Person>, pid: TrackId): nat
    decreases |persons|
  {
    if |persons| == 0 then 0
    else (if persons[0].pid == pid then 1 else 0) + Occurrences(persons[1..], pid)
  }

  /** The first report about track `pid`, if any. */
  function ReportFor(reports: seq<Report>, pid: TrackId): Option<Report>
    decreases |reports|
  {
    if |reports| == 0 then None
    else if reports[0].personId == pid then Some(reports[0])
    else ReportFor(reports[1..], pid)
  }

  /** How many alerts name track `pid`. */
  function AlertsFor(alerts: seq<Alert>, pid: TrackId): nat
    decreases |alerts|
  {
    if |alerts| == 0 then 0
    else (if alerts[0].personId == pid then 1 else 0) + AlertsFor(alerts[1..], pid)
  }

  /** ProcessPersons, unfolded once. */
  lemma Unfold(st: State, persons: seq<Person>, items: seq<Item>)
    requires Valid(st) && |persons| > 0
    ensures var o := ProcessPerson(st, persons[0], items);
            var rest := ProcessPersons(o.state, persons[1..], items);
            ProcessPersons(st, persons, items) ==
              FrameStep(rest.state, [o.report] + rest.reports, AlertOf(o) + rest.alerts)
  {
  }

  lemma AlertsForAppend(a: seq<Alert>, b: seq<Alert>, pid: TrackId)
    ensures AlertsFor(a + b, pid) == AlertsFor(a, pid) + AlertsFor(b, pid)
    decreases |a|
  {
    if |a| == 0 {
      assert a + b == b;
    } else {
      assert (a + b)[1..] == a[1..] + b;
      AlertsForAppend(a[1..], b, pid);
    }
  }

  lemma ReportForCons(rep: Report, reports: seq<Report>, pid: TrackId)
    ensures ReportFor([rep] + reports, pid) == if rep.personId == pid then Some(rep) else ReportFor(reports, pid)
  {
    assert ([rep] + reports)[1..] == reports;
  }

  /** Prepending the zero or one alert of person `q` adds one alert for `pid` exactly when it fired and q == pid. */
  lemma AlertsForCons(fired: seq<Alert>, alerts: seq<Alert>, pid: TrackId, q: TrackId)
    requires fired == [] || (|fired| == 1 && fired[0].personId == q)
    ensures AlertsFor(fired + alerts, pid) == (if fired != [] && q == pid then 1 else 0) + AlertsFor(alerts, pid)
  {
    AlertsForAppend(fired, alerts, pid);
    if fired != [] {
      assert fired[1..] == [];
    }
  }

  /** A report carries its person's id and box, `avg_scores["person"] = 1.0`, and only averages in [0, 1]. */
  ghost predicate Shaped(rep: Report, p: Person)
  {
    && rep.personId == p.pid
    && rep.bbox == p.box
    && PersonClass in rep.avgScores
    && rep.avgScores[PersonClass] == 1.0
    && (forall c :: c in rep.avgScores ==> 0.0 <= rep.avgScores[c] <= 1.0)
  }

  lemma ShapedCons(rep: Report, reports: seq<Report>, persons: seq<Person>)
    requires |persons| > 0 && |reports| == |persons| - 1
    requires Shaped(rep, persons[0])
    requires forall i :: 0 <= i < |reports| ==> Shaped(reports[i], persons[i + 1])
    ensures forall i :: 0 <= i < |persons| ==> Shaped(([rep] + reports)[i], persons[i])
  {
    forall i | 0 <= i < |persons| ensures Shaped(([rep] + reports)[i], persons[i]) {
      if i > 0 {
        assert ([rep] + reports)[i] == reports[i - 1];
      }
    }
  }

  /**
   * `detections_json` has one entry per accepted person, in order, carrying
   * that person's id and box, `avg_scores["person"] = 1.0`, and only averages
   * in [0, 1].
   */
  lemma {:induction false} ReportsShape(st: State, persons: seq<Person>, items: seq<Item>)
    requires Valid(st)
    ensures var r := ProcessPersons(st, persons, items);
            forall i :: 0 <= i < |persons| ==> Shaped(r.reports[i], persons[i])
    decreases |persons|
  {
    if |persons| > 0 {
      var o := ProcessPerson(st, persons[0], items);
      var rest := ProcessPersons(o.state, persons[1..], items);
      ReportsShape(o.state, persons[1..], items);
      Unfold(st, persons, items);
      ShapedCons(o.report, rest.reports, persons);
    }
  }

  /**
   * Each report whose person id does not recur later in the frame carries
   * that track's rolling averages in `b` (plus `person` = 1.0).
   */
  ghost predicate LatestAverages(reports: seq<Report>, persons: seq<Person>, b: Buffers)
    requires WellFormed(b)
  {
    && |reports| == |persons|
    && forall i :: 0 <= i < |persons| && Occurrences(persons[i + 1..], persons[i].pid) == 0 ==>
         reports[i].avgScores == Averages(b, persons[i].pid)[PersonClass := 1.0]
  }

  lemma LatestAveragesCons(rep: Report, reports: seq<Report>, persons: seq<Person>, b: Buffers)
    requires WellFormed(b) && |persons| > 0
    requires LatestAverages(reports, persons[1..], b)
    requires Occurrences(persons[1..], persons[0].pid) == 0 ==>
               rep.avgScores == Averages(b, persons[0].pid)[PersonClass := 1.0]
    ensures LatestAverages([rep] + reports, persons, b)
  {
    forall i | 0 <= i < |persons| && Occurrences(persons[i + 1..], persons[i].pid) == 0
      ensures ([rep] + reports)[i].avgScores == Averages(b, persons[i].pid)[PersonClass := 1.0]
    {
      if i > 0 {
        assert ([rep] + reports)[i] == reports[i - 1];
        assert persons[1..][i - 1] == persons[i];
        assert persons[1..][i - 1 + 1..] == persons[i + 1..];
      }
    }
  }

  /**
   * A report is computed after its own person's pushes, so it carries the
   * averages its track keeps to the end of the frame unless a later person of
   * the frame shares its id.
   */
  lemma {:induction false} ReportsAverages(st: State, persons: seq<Person>, items: seq<Item>)
    requires Valid(st)
    ensures var r := ProcessPersons(st, persons, items);
            LatestAverages(r.reports, persons, r.state.buffers)
    decreases |persons|
  {
    if |persons| > 0 {
      var o := ProcessPerson(st, persons[0], items);
      var rest := ProcessPersons(o.state, persons[1..], items);
      var pid := persons[0].pid;
      Unfold(st, persons, items);
      ReportsAverages(o.state, persons[1..], items);
      if Occurrences(persons[1..], pid) == 0 {
        AbsentTrack(o.state, persons[1..], items, pid);
        assert Averages(rest.state.buffers, pid) == Averages(o.state.buffers, pid);
      }
      LatestAveragesCons(o.report, rest.reports, persons, rest.state.buffers);
    }
  }

  /** Alert `a` is the alert of one of the reports, and that report is not safe. */
  ghost predicate RaisedFrom(a: Alert, reports: seq<Report>)
  {
    exists rep :: rep in reports && !IsSafe(rep.ppeStatus) && a == Raise(rep)
  }

  /** Every alert in `alerts` is raised from an unsafe report in `reports`. */
  ghost predicate AllRaised(alerts: seq<Alert>, reports: seq<Report>)
  {
    forall a :: a in alerts ==> RaisedFrom(a, reports)
  }

  /**
   * Every alert is a "violation" raised for a person whose status is not
   * safe, repeating that person's id, box and status from `detections_json`.
   */
  lemma {:induction false} AlertsAreViolations(st: State, persons: seq<Person>, items: seq<Item>)
    requires Valid(st)
    ensures var r := ProcessPersons(st, persons, items);
            AllRaised(r.alerts, r.reports)
    decreases |persons|
  {
    if |persons| > 0 {
      var o := ProcessPerson(st, persons[0], items);
      var rest := ProcessPersons(o.state, persons[1..], items);
      AlertsAreViolations(o.state, persons[1..], items);
      Unfold(st, persons, items);
      RaisedCons(o.report, AlertOf(o), rest.alerts, rest.reports);
    }
  }

  /** Prepending a report and the zero or one alert raised for it keeps every alert raised. */
  lemma RaisedCons(rep: Report, fired: seq<Alert>, alerts: seq<Alert>, reports: seq<Report>)
    requires AllRaised(alerts, reports)
    requires fired == [] || (fired == [Raise(rep)] && !IsSafe(rep.ppeStatus))
    ensures AllRaised(fired + alerts, [rep] + reports)
  {
    forall a | a in fired + alerts ensures RaisedFrom(a, [rep] + reports) {
      if a in fired {
        assert rep in [rep] + reports;
      } else {
        var r :| r in reports && !IsSafe(r.ppeStatus) && a == Raise(r);
        assert r in [rep] + reports;
      }
    }
  }

  /** A frame in which every person is safe raises no alert. */
  lemma {:induction false} AllSafeNoAlerts(st: State, persons: seq<Person>, items: seq<Item>)
    requires Valid(st)
    requires forall rep :: rep in ProcessPersons(st, persons, items).reports ==> IsSafe(rep.ppeStatus)
    ensures ProcessPersons(st, persons, items).alerts == []
    decreases |persons|
  {
    if |persons| > 0 {
      var o := ProcessPerson(st, persons[0], items);
      var rest := ProcessPersons(o.state, persons[1..], items);
      Unfold(st, persons, items);
      assert o.report in ProcessPersons(st, persons, items).reports;
      assert o.alert == None;
      assert forall rep :: rep in rest.reports ==> rep in ProcessPersons(st, persons, items).reports;
      AllSafeNoAlerts(o.state, persons[1..], items);
    }
  }

  /** Every buffer of a track id outside `pids` is the same in `b` as in `b0`. */
  ghost predicate KeepsTracks(b0: Buffers, b: Buffers, pids: set<TrackId>)
  {
    forall p, c :: p !in pids ==> BufferOf(b, p, c) == BufferOf(b0, p, c)
  }

  /** Every buffer of a class outside `classes` is the same in `b` as in `b0`. */
  ghost predicate KeepsClasses(b0: Buffers, b: Buffers, classes: set<ClassId>)
  {
    forall p, c :: c !in classes ==> BufferOf(b, p, c) == BufferOf(b0, p, c)
  }

  lemma KeepsTracksStep(b0: Buffers, b1: Buffers, b2: Buffers, pid: TrackId, pids: set<TrackId>)
    requires forall q :: q != pid ==> (q in b1 <==> q in b0) && (q in b0 ==> b1[q] == b0[q])
    requires KeepsTracks(b1, b2, pids)
    ensures KeepsTracks(b0, b2, {pid} + pids)
  {
    forall p, c | p !in {pid} + pids ensures BufferOf(b2, p, c) == BufferOf(b0, p, c) {
      assert BufferOf(b1, p, c) == BufferOf(b0, p, c);
    }
  }

  lemma KeepsClassesStep(b0: Buffers, b1: Buffers, b2: Buffers, classes: set<ClassId>)
    requires KeepsClasses(b0, b1, classes)
    requires KeepsClasses(b1, b2, classes)
    ensures KeepsClasses(b0, b2, classes)
  {
  }

  /** Buffers of track ids that are not accepted persons of the frame are untouched. */
  lemma {:induction false} OtherTracksUntouched(st: State, persons: seq<Person>, items: seq<Item>)
    requires Valid(st)
    ensures KeepsTracks(st.buffers, ProcessPersons(st, persons, items).state.buffers, PidsOf(persons))
    decreases |persons|
  {
    if |persons| > 0 {
      var o := ProcessPerson(st, persons[0], items);
      var rest := ProcessPersons(o.state, persons[1..], items);
      Unfold(st, persons, items);
      OtherTracksUntouched(o.state, persons[1..], items);
      KeepsTracksStep(st.buffers, o.state.buffers, rest.state.buffers, persons[0].pid, PidsOf(persons[1..]));
    }
  }

  /** One person's inner loop leaves the buffers of classes no item has untouched. */
  lemma OtherClassesOfPerson(b: Buffers, p0: Person, items: seq<Item>)
    ensures KeepsClasses(b, RecordItems(b, p0.pid, p0.box, items), ClassesOf(items))
  {
    RecordItemsBuffers(b, p0.pid, p0.box, items);
    forall p, c | c !in ClassesOf(items)
      ensures BufferOf(RecordItems(b, p0.pid, p0.box, items), p, c) == BufferOf(b, p, c)
    {
      IndicatorsOfAbsentClass(p0.box, items, c);
    }
  }

  /** Buffers of classes that no accepted item of the frame has are untouched. */
  lemma {:induction false} OtherClassesUntouched(st: State, persons: seq<Person>, items: seq<Item>)
    requires Valid(st)
    ensures KeepsClasses(st.buffers, ProcessPersons(st, persons, items).state.buffers, ClassesOf(items))
    decreases |persons|
  {
    if |persons| > 0 {
      var p0 := persons[0];
      var o := ProcessPerson(st, p0, items);
      var rest := ProcessPersons(o.state, persons[1..], items);
      Unfold(st, persons, items);
      OtherClassesUntouched(o.state, persons[1..], items);
      OtherClassesOfPerson(st.buffers, p0, items);
      KeepsClassesStep(st.buffers, o.state.buffers, rest.state.buffers, ClassesOf(items));
    }
  }

  /** Every accepted person id has a flag after the frame, and no other id gains one. */
  lemma {:induction false} FlagKeys(st: State, persons: seq<Person>, items: seq<Item>)
    requires Valid(st)
    ensures forall q :: q in ProcessPersons(st, persons, items).state.alertSent <==>
                        q in st.alertSent || q in PidsOf(persons)
    decreases |persons|
  {
    if |persons| > 0 {
      var o := ProcessPerson(st, persons[0], items);
      Unfold(st, persons, items);
      FlagKeys(o.state, persons[1..], items);
    }
  }

  /** Flags change only for accepted person ids. */
  lemma {:induction false} FlagsIsolated(st: State, persons: seq<Person>, items: seq<Item>)
    requires Valid(st)
    ensures forall q :: q in st.alertSent && q !in PidsOf(persons) ==>
              q in ProcessPersons(st, persons, items).state.alertSent &&
              ProcessPersons(st, persons, items).state.alertSent[q] == st.alertSent[q]
    decreases |persons|
  {
    if |persons| > 0 {
      var o := ProcessPerson(st, persons[0], items);
      Unfold(st, persons, items);
      FlagsIsolated(o.state, persons[1..], items);
    }
  }

  /** Track `pid` has the same flag and the same buffers in `st2` as in `st`. */
  ghost predicate TrackKept(st: State, st2: State, pid: TrackId)
  {
    && FlagOf(st2.alertSent, pid) == FlagOf(st.alertSent, pid)
    && (pid in st2.buffers <==> pid in st.buffers)
    && (pid in st.buffers ==> st2.buffers[pid] == st.buffers[pid])
  }

  /** A track id absent from the person list: no report, no alert, its flag and buffers unchanged. */
  lemma {:induction false} AbsentTrack(st: State, persons: seq<Person>, items: seq<Item>, pid: TrackId)
    requires Valid(st)
    requires Occurrences(persons, pid) == 0
    ensures var r := ProcessPersons(st, persons, items);
            && ReportFor(r.reports, pid) == None
            && AlertsFor(r.alerts, pid) == 0
            && TrackKept(st, r.state, pid)
    decreases |persons|
  {
    if |persons| > 0 {
      var o := ProcessPerson(st, persons[0], items);
      var rest := ProcessPersons(o.state, persons[1..], items);
      Unfold(st, persons, items);
      AbsentTrack(o.state, persons[1..], items, pid);
      ReportForCons(o.report, rest.reports, pid);
      AlertsForCons(AlertOf(o), rest.alerts, pid, persons[0].pid);
      assert TrackKept(st, o.state, pid);
    }
  }

  /**
   * The evidence law over buffers `b0` before and `b` after: the report about
   * `pid` carries the rolling averages of `b` (plus `person` = 1.0) and is
   * decided from them, and each of its buffers in `b` is its buffer in
   * `b0` having received exactly the containment observations of the items of
   * that class, in order.
   */
  ghost predicate Evidence(b0: Buffers, b: Buffers, reports: seq<Report>, items: seq<Item>, pid: TrackId)
    requires WellFormed(b)
  {
    && ReportFor(reports, pid).Some?
    && var rep := ReportFor(reports, pid).value;
       && rep.avgScores == Averages(b, pid)[PersonClass := 1.0]
       && rep.ppeStatus == Decide(Averages(b, pid))
       && (forall c :: BufferOf(b, pid, c) == PushAll(BufferOf(b0, pid, c), Indicators(rep.bbox, items, c)))
  }

  /** What a frame does to a track it names, in terms of the evidence law. */
  ghost predicate EvidenceLaw(st: State, persons: seq<Person>, items: seq<Item>, pid: TrackId)
    requires Valid(st)
  {
    var r := ProcessPersons(st, persons, items);
    Evidence(st.buffers, r.state.buffers, r.reports, items, pid)
  }

  lemma EvidenceAtHead(st: State, persons: seq<Person>, items: seq<Item>, pid: TrackId)
    requires Valid(st)
    requires |persons| > 0 && persons[0].pid == pid && Occurrences(persons[1..], pid) == 0
    ensures EvidenceLaw(st, persons, items, pid)
  {
    var p0 := persons[0];
    var o := ProcessPerson(st, p0, items);
    var rest := ProcessPersons(o.state, persons[1..], items);
    Unfold(st, persons, items);
    AbsentTrack(o.state, persons[1..], items, pid);
    ReportForCons(o.report, rest.reports, pid);
    RecordItemsBuffers(st.buffers, pid, p0.box, items);
  }

  /** A report about another track and a state that keeps `pid` leave the evidence law of `pid` intact. */
  lemma EvidenceCons(b0: Buffers, b1: Buffers, b: Buffers, rep: Report, reports: seq<Report>, items: seq<Item>, pid: TrackId)
    requires WellFormed(b)
    requires rep.personId != pid
    requires pid in b1 <==> pid in b0
    requires pid in b0 ==> b1[pid] == b0[pid]
    requires Evidence(b1, b, reports, items, pid)
    ensures Evidence(b0, b, [rep] + reports, items, pid)
  {
    ReportForCons(rep, reports, pid);
    var r := ReportFor(reports, pid).value;
    forall c ensures BufferOf(b, pid, c) == PushAll(BufferOf(b0, pid, c), Indicators(r.bbox, items, c)) {
      assert BufferOf(b1, pid, c) == BufferOf(b0, pid, c);
    }
  }

  lemma EvidenceAfterHead(st: State, persons: seq<Person>, items: seq<Item>, pid: TrackId)
    requires Valid(st)
    requires |persons| > 0 && persons[0].pid != pid
    requires EvidenceLaw(ProcessPerson(st, persons[0], items).state, persons[1..], items, pid)
    ensures EvidenceLaw(st, persons, items, pid)
  {
    var o := ProcessPerson(st, persons[0], items);
    var rest := ProcessPersons(o.state, persons[1..], items);
    Unfold(st, persons, items);
    EvidenceCons(st.buffers, o.state.buffers, rest.state.buffers, o.report, rest.reports, items, pid);
  }

  /** A track seen exactly once in a frame obeys the evidence law. */
  lemma {:induction false} OnceTrackEvidence(st: State, persons: seq<Person>, items: seq<Item>, pid: TrackId)
    requires Valid(st)
    requires Occurrences(persons, pid) == 1
    ensures EvidenceLaw(st, persons, items, pid)
    decreases |persons|
  {
    if persons[0].pid == pid {
      EvidenceAtHead(st, persons, items, pid);
    } else {
      var o := ProcessPerson(st, persons[0], items);
      OnceTrackEvidence(o.state, persons[1..], items, pid);
      EvidenceAfterHead(st, persons, items, pid);
    }
  }

  /** The alert half of OnceTrackAlert when the track is the first person of the list. */
  lemma AlertAtHead(st: State, persons: seq<Person>, items: seq<Item>, pid: TrackId)
    requires Valid(st)
    requires |persons| > 0 && persons[0].pid == pid && Occurrences(persons[1..], pid) == 0
    ensures var r := ProcessPersons(st, persons, items);
            && ReportFor(r.reports, pid).Some?
            && var safe := IsSafe(ReportFor(r.reports, pid).value.ppeStatus);
               && AlertsFor(r.alerts, pid) == (if !safe && FlagOf(st.alertSent, pid) then 1 else 0)
               && FlagOf(r.state.alertSent, pid) == safe
  {
    var o := ProcessPerson(st, persons[0], items);
    var rest := ProcessPersons(o.state, persons[1..], items);
    Unfold(st, persons, items);
    AlertsForAppend(AlertOf(o), rest.alerts, pid);
    AbsentTrack(o.state, persons[1..], items, pid);
    assert AlertsFor(AlertOf(o), pid) == if o.alert.Some? then 1 else 0 by {
      if o.alert.Some? {
        assert AlertOf(o)[1..] == [];
      }
    }
  }

  /**
   * The alert law for a track seen once in a frame: an alert naming it is
   * raised iff its report is unsafe and its flag was armed; afterwards the
   * flag is armed iff the report is safe.
   */
  lemma {:induction false} OnceTrackAlert(st: State, persons: seq<Person>, items: seq<Item>, pid: TrackId)
    requires Valid(st)
    requires Occurrences(persons, pid) == 1
    ensures var r := ProcessPersons(st, persons, items);
            && ReportFor(r.reports, pid).Some?
            && var safe := IsSafe(ReportFor(r.reports, pid).value.ppeStatus);
               && AlertsFor(r.alerts, pid) == (if !safe && FlagOf(st.alertSent, pid) then 1 else 0)
               && FlagOf(r.state.alertSent, pid) == safe
    decreases |persons|
  {
    if persons[0].pid == pid {
      AlertAtHead(st, persons, items, pid);
    } else {
      var o := ProcessPerson(st, persons[0], items);
      var rest := ProcessPersons(o.state, persons[1..], items);
      Unfold(st, persons, items);
      assert ([o.report] + rest.reports)[1..] == rest.reports;
      AlertsForAppend(AlertOf(o), rest.alerts, pid);
      OnceTrackAlert(o.state, persons[1..], items, pid);
      assert AlertsFor(AlertOf(o), pid) == 0 by {
        if o.alert.Some? {
          assert AlertOf(o)[1..] == [];
        }
      }
    }
  }

  /**
   * Buffer bound: after any frame every evidence buffer holds at most
   * `Capacity` observations, each 0.0 or 1.0, and a stored buffer is never
   * empty, so every average is taken over a non-empty buffer.
   */
  lemma BuffersBounded(st: State, dets: seq<Detection>)
    requires Valid(st)
    ensures var b := ProcessFrame(st, dets).state.buffers;
            forall p, c :: |BufferOf(b, p, c)| <= Capacity && AllBinary(BufferOf(b, p, c)) &&
                           (p in b && c in b[p] ==> |b[p][c]| > 0)
  {
  }

  /**
   * `detections_json` has exactly one entry per accepted person, in input
   * order, with that person's id and box, `avg_scores["person"] = 1.0`,
   * every average in [0, 1], and, unless a later person shares the id, the
   * track's rolling averages at the end of the frame.
   */
  lemma FrameReports(st: State, dets: seq<Detection>)
    requires Valid(st)
    ensures var r := ProcessFrame(st, dets);
            var ps := Persons(dets);
            && |r.detections| == |ps|
            && (forall i :: 0 <= i < |ps| ==> Shaped(r.detections[i], ps[i]))
            && LatestAverages(r.detections, ps, r.state.buffers)
  {
    ReportsShape(st, Persons(dets), Items(dets));
    ReportsAverages(st, Persons(dets), Items(dets));
  }

  /**
   * The alerts component: None rather than an empty list when nothing fires,
   * None whenever every person is safe, and otherwise only "violation"
   * entries for unsafe persons that repeat a `detections_json` entry.
   */
  lemma FrameAlerts(st: State, dets: seq<Detection>)
    requires Valid(st)
    ensures var r := ProcessFrame(st, dets);
            && (r.alerts.Some? ==> |r.alerts.value| > 0)
            && (forall a :: a in AlertList(r) ==> RaisedFrom(a, r.detections))
            && ((forall rep :: rep in r.detections ==> IsSafe(rep.ppeStatus)) ==> r.alerts == None)
  {
    var s := ProcessPersons(st, Persons(dets), Items(dets));
    var r := ProcessFrame(st, dets);
    assert r.detections == s.reports && AlertList(r) == s.alerts;
    AlertsAreViolations(st, Persons(dets), Items(dets));
    assert AllRaised(AlertList(r), r.detections);
    if forall rep :: rep in r.detections ==> IsSafe(rep.ppeStatus) {
      AllSafeNoAlerts(st, Persons(dets), Items(dets));
    }
  }

  /**
   * Frame-local isolation: a frame changes buffers only of (accepted person
   * id, accepted item class) pairs and flags only of accepted person ids, and
   * leaves every accepted person id with a flag.
   */
  lemma FrameIsolation(st: State, dets: seq<Detection>)
    requires Valid(st)
    ensures var r := ProcessFrame(st, dets);
            forall p, c :: p !in PidsOf(Persons(dets)) || c !in ClassesOf(Items(dets)) ==>
              BufferOf(r.state.buffers, p, c) == BufferOf(st.buffers, p, c)
    ensures var r := ProcessFrame(st, dets);
            forall q :: q in r.state.alertSent <==> q in st.alertSent || q in PidsOf(Persons(dets))
    ensures var r := ProcessFrame(st, dets);
            forall q :: q in st.alertSent && q !in PidsOf(Persons(dets)) ==>
              q in r.state.alertSent && r.state.alertSent[q] == st.alertSent[q]
  {
    OtherTracksUntouched(st, Persons(dets), Items(dets));
    OtherClassesUntouched(st, Persons(dets), Items(dets));
    FlagKeys(st, Persons(dets), Items(dets));
    FlagsIsolated(st, Persons(dets), Items(dets));
  }

  /**
   * The per-frame law for a track that is one accepted person of the frame:
   * its buffers received the frame's containment observations, its report
   * carries their rolling averages and its status is decided from them, it is alerted iff unsafe with an armed flag, and its
   * flag is armed afterwards iff it is safe.
   */
  lemma FrameTrackLaw(st: State, dets: seq<Detection>, pid: TrackId)
    requires Valid(st)
    requires Occurrences(Persons(dets), pid) == 1
    ensures var r := ProcessFrame(st, dets);
            && ReportFor(r.detections, pid).Some?
            && var rep := ReportFor(r.detections, pid).value;
               && rep.avgScores == Averages(r.state.buffers, pid)[PersonClass := 1.0]
               && rep.ppeStatus == Decide(Averages(r.state.buffers, pid))
               && (forall c :: BufferOf(r.state.buffers, pid, c) ==
                                PushAll(BufferOf(st.buffers, pid, c), Indicators(rep.bbox, Items(dets), c)))
               && AlertsFor(AlertList(r), pid) == (if !IsSafe(rep.ppeStatus) && FlagOf(st.alertSent, pid) then 1 else 0)
               && FlagOf(r.state.alertSent, pid) == IsSafe(rep.ppeStatus)
  {
    OnceTrackEvidence(st, Persons(dets), Items(dets), pid);
    FrameAlertLaw(st, dets, pid);
  }

  /**
   * The alert law of a track that is one accepted person of the frame, on the
   * `process_frame` outputs; FrameTrackLaw and the induction over a series of
   * frames (Series.RunFollowsAlertStep) both rest on it.
   */
  lemma FrameAlertLaw(st: State, dets: seq<Detection>, pid: TrackId)
    requires Valid(st)
    requires Occurrences(Persons(dets), pid) == 1
    ensures var r := ProcessFrame(st, dets);
            && ReportFor(r.detections, pid).Some?
            && var safe := IsSafe(ReportFor(r.detections, pid).value.ppeStatus);
               && AlertsFor(AlertList(r), pid) == (if !safe && FlagOf(st.alertSent, pid) then 1 else 0)
               && FlagOf(r.state.alertSent, pid) == safe
  {
    OnceTrackAlert(st, Persons(dets), Items(dets), pid);
  }

  /**
   * The per-frame law for a track that is not an accepted person of the
   * frame: it is neither reported nor alerted, and its flag and buffers are
   * left as they were.
   */
  lemma FrameAbsentLaw(st: State, dets: seq<Detection>, pid: TrackId)
    requires Valid(st)
    requires Occurrences(Persons(dets), pid) == 0
    ensures var r := ProcessFrame(st, dets);
            && ReportFor(r.detections, pid) == None
            && AlertsFor(AlertList(r), pid) == 0
            && TrackKept(st, r.state, pid)
  {
    AbsentTrack(st, Persons(dets), Items(dets), pid);
  }

  /** A track never seen before that is unsafe in its first frame is alerted in that frame. */
  lemma FirstSightingAlerts(st: State, dets: seq<Detection>, pid: TrackId)
    requires Valid(st)
    requires pid !in st.alertSent
    requires Occurrences(Persons(dets), pid) == 1
    requires var rep := ReportFor(ProcessFrame(st, dets).detections, pid);
             rep.Some? && !IsSafe(rep.value.ppeStatus)
    ensures AlertsFor(AlertList(ProcessFrame(st, dets)), pid) == 1
  {
    FrameTrackLaw(st, dets, pid);
    assert FlagOf(st.alertSent, pid);
  }
}
