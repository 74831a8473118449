/**
 * `score_buffers`: one evidence buffer per (track id, class id), created on
 * the first observation pushed into it.
 */
module TrackStore {
  import opened RingBuffer

  type TrackId = int
  type ClassId = int

  /** track id -> class id -> buffer. */
  type Buffers = map<TrackId, map<ClassId, seq<real>>>

  /** The buffer of (pid, cls); a pair never observed reads as the empty buffer. */
  function BufferOf(b: Buffers, pid: TrackId, cls: ClassId): seq<real>
  {
    if pid in b && cls in b[pid] then b[pid][cls] else []
  }

  /** Every stored buffer was created by a push, is bounded, and holds only indicators. */
  ghost predicate WellFormed(b: Buffers)
  {
    forall pid, cls :: pid in b && cls in b[pid] ==>
      0 < |b[pid][cls]| <= Capacity && AllBinary(b[pid][cls])
  }

  lemma EmptyWellFormed()
    ensures WellFormed(map[])
  {
  }

  /** `score_buffers[pid][cls].append(x)`: only the buffer of (pid, cls) changes. */
  function Record(b: Buffers, pid: TrackId, cls: ClassId, x: real): (r: Buffers)
    ensures BufferOf(r, pid, cls) == Push(BufferOf(b, pid, cls), x)
    ensures forall p, c :: (p != pid || c != cls) ==> BufferOf(r, p, c) == BufferOf(b, p, c)
    ensures pid in r && cls in r[pid]
    ensures forall p :: p != pid ==> (p in r <==> p in b) && (p in b ==> r[p] == b[p])
    ensures pid in b ==> r[pid].Keys == b[pid].Keys + {cls}
    ensures pid !in b ==> r[pid].Keys == {cls}
    ensures WellFormed(b) && (x == 0.0 || x == 1.0) ==> WellFormed(r)
  {
    var inner := if pid in b then b[pid] else map[];
    var buf := if cls in inner then inner[cls] else [];
    b[pid := inner[cls := Push(buf, x)]]
  }

  /**
   * The rolling averages of one track: one entry per class that has a buffer,
   * each the fraction of positive observations in that buffer.
   */
  function Averages(b: Buffers, pid: TrackId): (m: map<ClassId, real>)
    requires WellFormed(b)
    ensures m.Keys == if pid in b then b[pid].Keys else {}
    ensures forall c :: c in m ==>
      |BufferOf(b, pid, c)| > 0 &&
      m[c] == Ones(BufferOf(b, pid, c)) as real / |BufferOf(b, pid, c)| as real &&
      0.0 <= m[c] <= 1.0
  {
    if pid in b then map c | c in b[pid] :: Average(b[pid][c]) else map[]
  }

  /** Under the invariant, a class has an average exactly when some observation was recorded for it. */
  lemma PresentIffObserved(b: Buffers, pid: TrackId, cls: ClassId)
    requires WellFormed(b)
    ensures cls in Averages(b, pid) <==> |BufferOf(b, pid, cls)| > 0
  {
  }
}
