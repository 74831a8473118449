/**
 * One frame's raw detections, the per-class confidence thresholds, and the
 * split of the accepted detections into persons and PPE items.
 */
module Detections {
  import opened Optional
  import opened Geometry

  /** Class ids of the detector, with the names the source gives them. */
  const Boots: int := 0
  const Helmet: int := 1
  const NoBoots: int := 2
  const NoHelmet: int := 3
  const NoVest: int := 4
  const PersonClass: int := 5
  const Vest: int := 6

  /** Minimum confidence per class id. */
  const Thresholds: map<int, real> :=
    map[Boots := 0.4, Helmet := 0.5, NoBoots := 0.3, NoHelmet := 0.3, NoVest := 0.2, PersonClass := 0.5, Vest := 0.5]

  /** `class_thresholds.get(cls, 0.5)`. */
  function Threshold(cls: int): (t: real)
    ensures 0.2 <= t <= 0.5
    ensures !(0 <= cls <= 6) ==> t == 0.5
  {
    if cls in Thresholds then Thresholds[cls] else 0.5
  }

  /** One detector box: class id, confidence, corners, and the tracker id when one was assigned. */
  datatype Detection = Detection(cls: int, conf: real, xyxy: RealBox, trackId: Option<int>)

  /** An accepted person: its track id (-1 when untracked) and integer box. */
  datatype Person = Person(pid: int, box: Box)

  /** An accepted PPE item: its class id and integer box. */
  datatype Item = Item(cls: int, box: Box)

  /** A detection survives the filter unless its confidence is below its class threshold. */
  predicate Accepted(d: Detection)
  {
    !(d.conf < Threshold(d.cls))
  }

  /** The tracker id, or the sentinel -1 for an untracked person. */
  function PidOf(d: Detection): int
  {
    match d.trackId
    case Some(t) => t
    case None => -1
  }

  function PersonOf(d: Detection): Person
  {
    Person(PidOf(d), ToIntBox(d.xyxy))
  }

  function ItemOf(d: Detection): Item
  {
    Item(d.cls, ToIntBox(d.xyxy))
  }

  /** The first pass over the boxes: accepted persons, in detection order. */
  function Persons(dets: seq<Detection>): (ps: seq<Person>)
    ensures |ps| <= |dets|
  {
    if |dets| == 0 then []
    else
      var rest := Persons(dets[1..]);
      if Accepted(dets[0]) && dets[0].cls == PersonClass then [PersonOf(dets[0])] + rest else rest
  }

  /** The second pass over the boxes: accepted non-person items, in detection order. */
  function Items(dets: seq<Detection>): (its: seq<Item>)
    ensures |its| <= |dets|
    ensures forall i :: 0 <= i < |its| ==> its[i].cls != PersonClass
  {
    if |dets| == 0 then []
    else
      var rest := Items(dets[1..]);
      if Accepted(dets[0]) && dets[0].cls != PersonClass then [ItemOf(dets[0])] + rest else rest
  }

  /** The person pass keeps detection order: it distributes over concatenation of the box list. */
  lemma {:induction false} PersonsAppend(a: seq<Detection>, b: seq<Detection>)
    ensures Persons(a + b) == Persons(a) + Persons(b)
    decreases |a|
  {
    if |a| == 0 {
      assert a + b == b;
    } else {
      PersonsAppend(a[1..], b);
      assert (a + b)[1..] == a[1..] + b;
    }
  }

  /** The item pass keeps detection order: it distributes over concatenation of the box list. */
  lemma {:induction false} ItemsAppend(a: seq<Detection>, b: seq<Detection>)
    ensures Items(a + b) == Items(a) + Items(b)
    decreases |a|
  {
    if |a| == 0 {
      assert a + b == b;
    } else {
      ItemsAppend(a[1..], b);
      assert (a + b)[1..] == a[1..] + b;
    }
  }

  /**
   * Exactly the accepted class-5 detections become persons: every person comes
   * from one, and every one yields a person.
   */
  lemma {:induction false} PersonsExact(dets: seq<Detection>)
    ensures forall p :: p in Persons(dets) ==>
      exists d :: d in dets && Accepted(d) && d.cls == PersonClass && p == PersonOf(d)
    ensures forall d :: d in dets && Accepted(d) && d.cls == PersonClass ==> PersonOf(d) in Persons(dets)
    decreases |dets|
  {
    if |dets| > 0 {
      PersonsExact(dets[1..]);
      assert forall d :: d in dets[1..] ==> d in dets;
      assert forall d :: d in dets ==> d == dets[0] || d in dets[1..];
    }
  }

  /**
   * Exactly the accepted detections of other classes become PPE items: every
   * item comes from one, and every one yields an item.
   */
  lemma {:induction false} ItemsExact(dets: seq<Detection>)
    ensures forall it :: it in Items(dets) ==>
      exists d :: d in dets && Accepted(d) && d.cls != PersonClass && it == ItemOf(d)
    ensures forall d :: d in dets && Accepted(d) && d.cls != PersonClass ==> ItemOf(d) in Items(dets)
    decreases |dets|
  {
    if |dets| > 0 {
      ItemsExact(dets[1..]);
      assert forall d :: d in dets[1..] ==> d in dets;
      assert forall d :: d in dets ==> d == dets[0] || d in dets[1..];
    }
  }

  /** A single detection becomes a person, an item, or nothing, according to its class and threshold. */
  lemma Single(d: Detection)
    ensures Persons([d]) == if Accepted(d) && d.cls == PersonClass then [PersonOf(d)] else []
    ensures Items([d]) == if Accepted(d) && d.cls != PersonClass then [ItemOf(d)] else []
  {
    assert [d][1..] == [];
  }

  /** A detection below its class threshold contributes neither a person nor an item, wherever it stands. */
  lemma RejectedIgnored(a: seq<Detection>, d: Detection, b: seq<Detection>)
    requires d.conf < Threshold(d.cls)
    ensures Persons(a + [d] + b) == Persons(a + b)
    ensures Items(a + [d] + b) == Items(a + b)
  {
    Single(d);
    PersonsAppend(a + [d], b);
    PersonsAppend(a, [d]);
    PersonsAppend(a, b);
    assert Persons(a) + [] == Persons(a);
    ItemsAppend(a + [d], b);
    ItemsAppend(a, [d]);
    ItemsAppend(a, b);
    assert Items(a) + [] == Items(a);
  }

  /** An accepted person without a tracker id is recorded under the sentinel id -1. */
  lemma UntrackedIsSentinel(d: Detection)
    requires Accepted(d) && d.cls == PersonClass && d.trackId == None
    ensures Persons([d]) == [Person(-1, ToIntBox(d.xyxy))]
  {
    Single(d);
  }
}
