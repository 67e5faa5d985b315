/**
 * The V4L2 camera engine of camera.c: one device handle, the negotiated
 * format, the buffer request count and a fixed pool of three memory-mapped
 * frame buffers, all updated in place.
 *
 * The kernel is an oracle. Every operation takes, as a reply record, what the
 * driver answers to the calls that operation makes (success or failure, the
 * granted buffer count, each buffer's length, the bytes of each dequeued
 * frame). The engine records every request it issues, in order, in `trace`.
 * Memory addresses are not modelled: each slot's `start` pointer is one of
 * NULL, MAP_FAILED, a live mapping, or a pointer whose mapping was released.
 */
module Camera {
  import opened CText
  import opened Motion

  const CAMERA_NUM_BUFFERS: nat := 3
  const CAMERA_VIDEO_WIDTH_PX: u32 := 640
  const CAMERA_VIDEO_HEIGHT_PX: u32 := 480

  /** The two enumerators of camera_pixel_fmt_t. */
  const CAMERA_PIXEL_FMT_GREY: int := 0
  const CAMERA_PIXEL_FMT_MJPEG: int := 1

  /** v4l2_fourcc: four characters packed little-endian into a 32-bit code. */
  function FourCC(a: char, b: char, c: char, d: char): u32
    requires a < 128 as char && b < 128 as char && c < 128 as char && d < 128 as char
  {
    a as int + b as int * 0x100 + c as int * 0x1_0000 + d as int * 0x100_0000
  }

  const V4L2_PIX_FMT_GREY: u32 := FourCC('G', 'R', 'E', 'Y')
  const V4L2_PIX_FMT_MJPEG: u32 := FourCC('M', 'J', 'P', 'G')
  const V4L2_CAP_VIDEO_CAPTURE: bv32 := 0x0000_0001
  const V4L2_CAP_STREAMING: bv32 := 0x0400_0000

  /** The device requests the engine issues, in the order it issues them. */
  datatype Request =
    | Open
    | QueryCap
    | SFmt(width: u32, height: u32, pixelformat: u32)
    | ReqBufs(count: nat)
    | QueryBuf(index: nat)
    | Mmap(index: nat, length: nat)
    | Munmap(index: nat, length: nat)
    | StreamOn
    | QBuf(index: nat)
    | DQBuf(index: nat)
    | StreamOff

  /** The fields of `format.fmt.pix` the engine reads. */
  datatype PixFormat = PixFormat(width: u32, height: u32, pixelformat: u32)

  /** The `start` pointer of a buffer_t. */
  datatype Start =
    | Null       // never mapped
    | MapFailed  // mmap returned MAP_FAILED
    | Mapped     // a live shared mapping
    | Unmapped   // munmap released it; the pointer is left dangling

  /** One entry of `buffers[]`; `data` is what the mapping shows while it is live. */
  datatype Slot = Slot(start: Start, length: nat, data: seq<byte>)

  ghost predicate WellFormed(s: Slot)
  {
    s.start == Mapped ==> |s.data| == s.length
  }

  /** A slot just mapped and zero-filled by memset. */
  function Zeroed(length: nat): (s: Slot)
    ensures WellFormed(s) && s.start == Mapped && s.length == length
    ensures forall i :: 0 <= i < |s.data| ==> s.data[i] == 0
  {
    Slot(Mapped, length, seq(length, _ => 0))
  }

  // ---------------------------------------------------------------------------
  // What the kernel answers

  /** VIDIOC_S_FMT: refused, or accepted with the format the driver settled on. */
  datatype FmtReply = FmtRejected | FmtAccepted(width: u32, height: u32, pixelformat: u32)

  /** The buffer count VIDIOC_REQBUFS writes back; never above the three slots. */
  type Granted = n: nat | n <= CAMERA_NUM_BUFFERS

  /** VIDIOC_QUERYBUF for one slot (its length) and the mmap of that slot. */
  datatype SlotReply = SlotReply(queried: bool, length: nat, mapped: bool)

  /** One reply per slot index; only the indices below the granted count are asked. */
  type SlotReplies = s: seq<SlotReply> | |s| == CAMERA_NUM_BUFFERS
    witness [SlotReply(false, 0, false), SlotReply(false, 0, false), SlotReply(false, 0, false)]

  /** The replies to camera_allocate_buffers' calls. */
  datatype AllocReplies = AllocReplies(reqbufs: bool, granted: Granted, slots: SlotReplies)

  /** QBUF and DQBUF of one slot, and the frame the device wrote into it. */
  datatype QueueReply = QueueReply(qbuf: bool, dqbuf: bool, frame: seq<byte>)

  type QueueReplies = s: seq<QueueReply> | |s| == CAMERA_NUM_BUFFERS
    witness [QueueReply(false, false, []), QueueReply(false, false, []), QueueReply(false, false, [])]

  /** The replies to one STREAMON, (QBUF, DQBUF) per slot, STREAMOFF cycle. */
  datatype CycleReplies = CycleReplies(streamOn: bool, queue: QueueReplies, streamOff: bool)

  /** The replies to camera_init's calls; `openResult` is what open(2) returns. */
  datatype InitReplies = InitReplies(
    openResult: int,
    queryCap: bool,
    capabilities: bv32,
    setFmt: FmtReply,
    alloc: AllocReplies)

  /** The replies to the lazy format switch and the capture cycle. */
  datatype SwitchReplies = SwitchReplies(release: bool, setFmt: FmtReply, alloc: AllocReplies)

  // ---------------------------------------------------------------------------
  // Format negotiation

  /** The fourcc camera_set_pixel_fmt requests for a camera_pixel_fmt_t value. */
  function RequestedCode(pxfmt: int): (code: Option<u32>)
    ensures code == Some(V4L2_PIX_FMT_GREY) <==> pxfmt == CAMERA_PIXEL_FMT_GREY
    ensures code == Some(V4L2_PIX_FMT_MJPEG) <==> pxfmt == CAMERA_PIXEL_FMT_MJPEG
    ensures code.None? <==> pxfmt != CAMERA_PIXEL_FMT_GREY && pxfmt != CAMERA_PIXEL_FMT_MJPEG
  {
    assert V4L2_PIX_FMT_GREY != V4L2_PIX_FMT_MJPEG;
    if pxfmt == CAMERA_PIXEL_FMT_GREY then Some(V4L2_PIX_FMT_GREY)
    else if pxfmt == CAMERA_PIXEL_FMT_MJPEG then Some(V4L2_PIX_FMT_MJPEG)
    else None
  }

  /**
   * `format` after S_FMT with a valid request for `code`: what the driver
   * wrote back when it accepted, the 640x480 request itself when it refused.
   */
  function FormatAfter(reply: FmtReply, code: u32): PixFormat
  {
    match reply
    case FmtAccepted(w, h, p) => PixFormat(w, h, p)
    case FmtRejected => PixFormat(CAMERA_VIDEO_WIDTH_PX, CAMERA_VIDEO_HEIGHT_PX, code)
  }

  // ---------------------------------------------------------------------------
  // Buffer allocation

  predicate SlotGranted(r: SlotReply)
  {
    r.queried && r.mapped
  }

  /** The first slot (from `from` on) whose QUERYBUF or mmap fails, or `granted`. */
  function FirstFailure(r: AllocReplies, from: nat := 0): (f: nat)
    requires from <= r.granted
    ensures from <= f <= r.granted
    ensures forall i :: from <= i < f ==> SlotGranted(r.slots[i])
    ensures f < r.granted ==> !SlotGranted(r.slots[f])
    decreases r.granted - from
  {
    if from == r.granted || !SlotGranted(r.slots[from]) then from else FirstFailure(r, from + 1)
  }

  predicate AllocSucceeds(r: AllocReplies)
  {
    r.reqbufs && FirstFailure(r) == r.granted
  }

  /** Allocation succeeds exactly when REQBUFS and every granted slot's QUERYBUF and mmap do. */
  lemma AllocSucceedsIff(r: AllocReplies)
    ensures AllocSucceeds(r) <==> r.reqbufs && forall i :: 0 <= i < r.granted ==> SlotGranted(r.slots[i])
  {
  }

  /** `bufrequest.count` after camera_allocate_buffers. */
  function AllocCount(r: AllocReplies): (n: nat)
    ensures n <= CAMERA_NUM_BUFFERS
  {
    if r.reqbufs then r.granted else CAMERA_NUM_BUFFERS
  }

  /** QUERYBUF of slot `index`, then its mmap when the query succeeded. */
  function SlotTrace(index: nat, reply: SlotReply): seq<Request>
  {
    [QueryBuf(index)] + if reply.queried then [Mmap(index, reply.length)] else []
  }

  /** The calls for slots `i` onward, stopping at the first failure. */
  function SlotsTrace(r: AllocReplies, i: nat): seq<Request>
    decreases r.granted - i
  {
    if i >= r.granted then []
    else SlotTrace(i, r.slots[i]) + if SlotGranted(r.slots[i]) then SlotsTrace(r, i + 1) else []
  }

  /** QUERYBUF and mmap of each slot below `index`, all of them granted. */
  function MappedTrace(r: AllocReplies, index: nat): seq<Request>
    requires index <= CAMERA_NUM_BUFFERS
  {
    if index == 0 then []
    else MappedTrace(r, index - 1) + SlotTrace(index - 1, r.slots[index - 1])
  }

  lemma {:induction false} SlotsTraceAt(r: AllocReplies, index: nat)
    requires index <= FirstFailure(r)
    ensures SlotsTrace(r, 0) == MappedTrace(r, index) + SlotsTrace(r, index)
  {
    if index > 0 {
      SlotsTraceAt(r, index - 1);
      assert SlotsTrace(r, index - 1) == SlotTrace(index - 1, r.slots[index - 1]) + SlotsTrace(r, index);
    }
  }

  /** Every request camera_allocate_buffers issues. */
  function AllocTrace(r: AllocReplies): seq<Request>
  {
    [ReqBufs(CAMERA_NUM_BUFFERS)] + if r.reqbufs then SlotsTrace(r, 0) else []
  }

  /**
   * Where the allocation loop stops: after the slots below `index - 1` were
   * all granted and slot `index - 1` was the last one tried.
   */
  lemma AllocTraceAt(r: AllocReplies, index: nat)
    requires r.reqbufs && index <= r.granted
    requires forall k :: 0 <= k < index - 1 ==> SlotGranted(r.slots[k])
    requires index == r.granted || (index > 0 && !SlotGranted(r.slots[index - 1]))
    ensures AllocTrace(r) == [ReqBufs(CAMERA_NUM_BUFFERS)] + MappedTrace(r, index)
  {
    if index == r.granted && forall k :: 0 <= k < index ==> SlotGranted(r.slots[k]) {
      SlotsTraceAt(r, index);
    } else {
      var f := index - 1;
      assert FirstFailure(r) == f;
      SlotsTraceAt(r, f);
      assert SlotsTrace(r, f) == SlotTrace(f, r.slots[f]);
    }
  }

  /**
   * One turn of the allocation loop on a slot: it records the queried
   * length, then holds MAP_FAILED or a fresh zero-filled mapping.
   */
  function MappedSlot(reply: SlotReply, before: Slot): (s: Slot)
    ensures WellFormed(before) ==> WellFormed(s)
  {
    if !reply.queried then before
    else if !reply.mapped then before.(start := MapFailed, length := reply.length)
    else Zeroed(reply.length)
  }

  /** One slot after allocation, given what it held before. */
  function AllocatedSlot(r: AllocReplies, i: nat, before: Slot): Slot
  {
    if !r.reqbufs || i >= r.granted || i > FirstFailure(r) then before
    else MappedSlot(r.slots[i], before)
  }

  /** The pool after camera_allocate_buffers. */
  function AllocateSlots(r: AllocReplies, before: seq<Slot>): (after: seq<Slot>)
    ensures |after| == |before|
  {
    seq(|before|, i requires 0 <= i < |before| => AllocatedSlot(r, i, before[i]))
  }

  /** The pool while the allocation loop is at slot `index`: the slots below it are mapped and zeroed. */
  function AllocPrefix(r: AllocReplies, before: seq<Slot>, index: nat): (pool: seq<Slot>)
    requires index <= CAMERA_NUM_BUFFERS
    ensures |pool| == |before|
  {
    seq(|before|, k requires 0 <= k < |before| => if k < index then Zeroed(r.slots[k].length) else before[k])
  }

  lemma AllocPrefixStep(r: AllocReplies, before: seq<Slot>, index: nat)
    requires index < |before| && index < CAMERA_NUM_BUFFERS && SlotGranted(r.slots[index])
    ensures AllocPrefix(r, before, index)[index := MappedSlot(r.slots[index], before[index])] ==
            AllocPrefix(r, before, index + 1)
  {
  }

  lemma AllocPrefixAtFailure(r: AllocReplies, before: seq<Slot>, index: nat)
    requires r.reqbufs && index == FirstFailure(r) < r.granted && index < |before|
    ensures AllocPrefix(r, before, index)[index := MappedSlot(r.slots[index], before[index])] == AllocateSlots(r, before)
  {
  }

  lemma AllocPrefixComplete(r: AllocReplies, before: seq<Slot>)
    requires r.reqbufs && FirstFailure(r) == r.granted
    ensures AllocPrefix(r, before, r.granted) == AllocateSlots(r, before)
  {
  }

  /**
   * On success every granted slot is mapped, zero-filled and records the
   * length the device reported for it; the slots above the granted count
   * are untouched.
   */
  lemma AllocateOnSuccess(r: AllocReplies, before: seq<Slot>, i: nat)
    requires AllocSucceeds(r) && i < |before|
    ensures i < r.granted ==> AllocateSlots(r, before)[i] == Zeroed(r.slots[i].length)
    ensures i >= r.granted ==> AllocateSlots(r, before)[i] == before[i]
  {
  }

  /**
   * On failure there is no unwind: the slots below the failing one stay
   * mapped, the slots above it are untouched, and the failing slot records
   * its length and MAP_FAILED when only its mmap failed.
   */
  lemma AllocateOnFailure(r: AllocReplies, before: seq<Slot>, i: nat)
    requires !AllocSucceeds(r) && i < |before|
    ensures r.reqbufs && i < FirstFailure(r) ==> AllocateSlots(r, before)[i].start == Mapped
    ensures !r.reqbufs || i > FirstFailure(r) ==> AllocateSlots(r, before)[i] == before[i]
    ensures r.reqbufs && i == FirstFailure(r) < r.granted ==>
              AllocateSlots(r, before)[i] ==
                if r.slots[i].queried then before[i].(start := MapFailed, length := r.slots[i].length)
                else before[i]
  {
  }

  /** No mapping lies at or above the request count. */
  ghost predicate NoStale(pool: seq<Slot>, count: nat)
  {
    forall i :: 0 <= i < |pool| && pool[i].start == Mapped ==> i < count
  }

  /** Allocating into a pool with no live mapping leaves none above the new count. */
  lemma AllocateKeepsNoStale(r: AllocReplies, before: seq<Slot>)
    requires forall i :: 0 <= i < |before| ==> before[i].start != Mapped
    ensures NoStale(AllocateSlots(r, before), AllocCount(r))
  {
    var after := AllocateSlots(r, before);
    forall i | 0 <= i < |after| && after[i].start == Mapped
      ensures i < AllocCount(r)
    {
      assert after[i] == AllocatedSlot(r, i, before[i]);
    }
  }

  // ---------------------------------------------------------------------------
  // Buffer release

  /** munmap of slot i: a live mapping becomes a dangling pointer; other pointers stay as they are. */
  function Unmap(s: Slot): (t: Slot)
    ensures t.start != Mapped && t.length == s.length
  {
    if s.start == Mapped then s.(start := Unmapped) else s
  }

  /** The munmap calls of camera_release_buffers over the first `n` slots. */
  function UnmapTrace(pool: seq<Slot>, n: nat): seq<Request>
    requires n <= |pool|
  {
    if n == 0 then []
    else UnmapTrace(pool, n - 1) + if pool[n - 1].start != Null then [Munmap(n - 1, pool[n - 1].length)] else []
  }

  /** munmap is called exactly for the slots below `n` whose pointer is not NULL, once each. */
  lemma {:induction false} UnmapTraceExact(pool: seq<Slot>, n: nat)
    requires n <= |pool|
    ensures forall e :: e in UnmapTrace(pool, n) ==>
              e.Munmap? && e.index < n && pool[e.index].start != Null && e.length == pool[e.index].length
    ensures forall i :: 0 <= i < |pool| ==>
              (Munmap(i, pool[i].length) in UnmapTrace(pool, n) <==> i < n && pool[i].start != Null)
    ensures |UnmapTrace(pool, n)| <= n
    ensures forall p, q :: 0 <= p < q < |UnmapTrace(pool, n)| ==>
              UnmapTrace(pool, n)[p].index < UnmapTrace(pool, n)[q].index
  {
    if n > 0 {
      UnmapTraceExact(pool, n - 1);
      var t := UnmapTrace(pool, n - 1);
      assert forall p :: 0 <= p < |t| ==> t[p] in t;
    }
  }

  /** The pool after camera_release_buffers unmapped the first `n` slots. */
  function ReleaseSlots(before: seq<Slot>, n: nat): (after: seq<Slot>)
    ensures |after| == |before|
  {
    seq(|before|, i requires 0 <= i < |before| => if i < n then Unmap(before[i]) else before[i])
  }

  /** Releasing a pool with no mapping above its count leaves no live mapping at all. */
  lemma ReleaseLeavesNothingMapped(before: seq<Slot>, n: nat)
    requires NoStale(before, n)
    ensures forall i :: 0 <= i < |before| ==> ReleaseSlots(before, n)[i].start != Mapped
  {
  }

  // ---------------------------------------------------------------------------
  // The capture cycle

  predicate Served(q: QueueReply)
  {
    q.qbuf && q.dqbuf
  }

  /** The first slot (from `from` on, below `n`) whose QBUF or DQBUF fails, or `n`. */
  function CycleStop(r: CycleReplies, n: nat, from: nat := 0): (f: nat)
    requires from <= n <= CAMERA_NUM_BUFFERS
    ensures from <= f <= n
    ensures forall i :: from <= i < f ==> Served(r.queue[i])
    ensures f < n ==> !Served(r.queue[f])
    decreases n - from
  {
    if from == n || !Served(r.queue[from]) then from else CycleStop(r, n, from + 1)
  }

  /** The cycle returns normally exactly when all its ioctls succeed. */
  predicate CycleOk(r: CycleReplies, n: nat)
    requires n <= CAMERA_NUM_BUFFERS
  {
    r.streamOn && CycleStop(r, n) == n && r.streamOff
  }

  /** QBUF of slot `index`, then its DQBUF when the QBUF succeeded. */
  function QueueStep(index: nat, q: QueueReply): seq<Request>
  {
    [QBuf(index)] + if q.qbuf then [DQBuf(index)] else []
  }

  /** QBUF(i) then DQBUF(i) for i = from .. n - 1, stopping at the first failure. */
  function QueueTrace(r: CycleReplies, n: nat, from: nat): seq<Request>
    requires n <= CAMERA_NUM_BUFFERS
    decreases n - from
  {
    if from >= n then []
    else QueueStep(from, r.queue[from]) + if Served(r.queue[from]) then QueueTrace(r, n, from + 1) else []
  }

  /** Every request of one cycle: STREAMON, the queue operations, and STREAMOFF unless something failed. */
  function CycleTrace(r: CycleReplies, n: nat): seq<Request>
    requires n <= CAMERA_NUM_BUFFERS
  {
    [StreamOn] +
    if !r.streamOn then []
    else QueueTrace(r, n, 0) + if CycleStop(r, n) < n then [] else [StreamOff]
  }

  /** The queue operations of a cycle in which every one succeeds. */
  function Pairs(from: nat, n: nat): seq<Request>
    decreases n - from
  {
    if from >= n then [] else [QBuf(from), DQBuf(from)] + Pairs(from + 1, n)
  }

  lemma {:induction false} QueueTraceAllServed(r: CycleReplies, n: nat, from: nat)
    requires from <= n <= CAMERA_NUM_BUFFERS && CycleStop(r, n, from) == n
    ensures QueueTrace(r, n, from) == Pairs(from, n)
    decreases n - from
  {
    if from < n {
      QueueTraceAllServed(r, n, from + 1);
    }
  }

  /** A successful cycle issues STREAMON, QBUF(i) and DQBUF(i) for every slot in order, then STREAMOFF. */
  lemma CycleTraceOnSuccess(r: CycleReplies, n: nat)
    requires n <= CAMERA_NUM_BUFFERS && CycleOk(r, n)
    ensures CycleTrace(r, n) == [StreamOn] + Pairs(0, n) + [StreamOff]
  {
    QueueTraceAllServed(r, n, 0);
  }

  /** The queue operations of the served slots below `index`. */
  function ServedTrace(r: CycleReplies, index: nat): seq<Request>
    requires index <= CAMERA_NUM_BUFFERS
  {
    if index == 0 then [] else ServedTrace(r, index - 1) + QueueStep(index - 1, r.queue[index - 1])
  }

  lemma {:induction false} QueueTraceAt(r: CycleReplies, n: nat, index: nat)
    requires n <= CAMERA_NUM_BUFFERS && index <= CycleStop(r, n)
    ensures QueueTrace(r, n, 0) == ServedTrace(r, index) + QueueTrace(r, n, index)
  {
    if index > 0 {
      QueueTraceAt(r, n, index - 1);
      assert QueueTrace(r, n, index - 1) == QueueStep(index - 1, r.queue[index - 1]) + QueueTrace(r, n, index);
    }
  }

  lemma CycleTraceAtFailure(r: CycleReplies, n: nat, f: nat)
    requires n <= CAMERA_NUM_BUFFERS && r.streamOn && f == CycleStop(r, n) < n
    ensures CycleTrace(r, n) == [StreamOn] + ServedTrace(r, f + 1)
  {
    QueueTraceAt(r, n, f);
    assert QueueTrace(r, n, f) == QueueStep(f, r.queue[f]);
  }

  lemma CycleTraceComplete(r: CycleReplies, n: nat)
    requires n <= CAMERA_NUM_BUFFERS && r.streamOn && CycleStop(r, n) == n
    ensures CycleTrace(r, n) == [StreamOn] + ServedTrace(r, n) + [StreamOff]
  {
    QueueTraceAt(r, n, n);
  }

  lemma {:induction false} QueueTraceShape(r: CycleReplies, n: nat, from: nat)
    requires n <= CAMERA_NUM_BUFFERS
    ensures StreamOff !in QueueTrace(r, n, from) && StreamOn !in QueueTrace(r, n, from)
    ensures var t := QueueTrace(r, n, from);
      forall p :: 0 <= p < |t| - 1 && t[p].QBuf? ==> t[p + 1] == DQBuf(t[p].index)
    decreases n - from
  {
    if from < n && Served(r.queue[from]) {
      QueueTraceShape(r, n, from + 1);
      var t := QueueTrace(r, n, from);
      var rest := QueueTrace(r, n, from + 1);
      assert t == [QBuf(from), DQBuf(from)] + rest;
      forall p | 0 <= p < |t| - 1 && t[p].QBuf?
        ensures t[p + 1] == DQBuf(t[p].index)
      {
        if p >= 2 {
          assert t[p] == rest[p - 2] && t[p + 1] == rest[p - 1];
        }
      }
    }
  }

  /**
   * STREAMOFF is issued exactly when STREAMON and every QBUF and DQBUF
   * succeeded, and every QBUF is immediately followed by the DQBUF of the
   * same slot unless the QBUF itself failed.
   */
  lemma CycleTraceShape(r: CycleReplies, n: nat)
    requires n <= CAMERA_NUM_BUFFERS
    ensures StreamOff in CycleTrace(r, n) <==> r.streamOn && CycleStop(r, n) == n
    ensures var t := CycleTrace(r, n);
      forall p :: 0 <= p < |t| - 1 && t[p].QBuf? ==> t[p + 1] == DQBuf(t[p].index)
  {
    QueueTraceShape(r, n, 0);
    var t := CycleTrace(r, n);
    if r.streamOn {
      var q := QueueTrace(r, n, 0);
      var tail := if CycleStop(r, n) < n then [] else [StreamOff];
      assert t == [StreamOn] + q + tail;
      forall p | 0 <= p < |t| - 1 && t[p].QBuf?
        ensures t[p + 1] == DQBuf(t[p].index)
      {
        assert t[p] == q[p - 1];
        if p == |q| {
          assert t[p + 1] == StreamOff;
          assert CycleStop(r, n) == n;
          QueueTraceAllServed(r, n, 0);
          PairsEndWithDQBuf(0, n);
        } else {
          assert t[p + 1] == q[p];
        }
      }
      if StreamOff in t {
        assert StreamOff in q + tail;
        assert StreamOff in tail;
      }
    }
  }

  lemma {:induction false} PairsEndWithDQBuf(from: nat, n: nat)
    ensures var t := Pairs(from, n); |t| > 0 ==> t[|t| - 1].DQBuf?
    decreases n - from
  {
    if from < n {
      PairsEndWithDQBuf(from + 1, n);
    }
  }

  /** A frame written by the device over a mapping's bytes; the mapping keeps its length. */
  function Overlay(bytes: seq<byte>, frame: seq<byte>): (r: seq<byte>)
    ensures |r| == |bytes|
    ensures |frame| >= |bytes| ==> r == frame[..|bytes|]
    ensures forall i :: 0 <= i < |r| ==> r[i] == if i < |frame| then frame[i] else bytes[i]
  {
    if |frame| >= |bytes| then frame[..|bytes|] else frame + bytes[|frame|..]
  }

  /** A dequeued slot: the process sees the device's frame only through a live mapping. */
  function Fill(s: Slot, frame: seq<byte>): (t: Slot)
    ensures t.start == s.start && t.length == s.length
    ensures WellFormed(s) ==> WellFormed(t)
  {
    if s.start == Mapped then s.(data := Overlay(s.data, frame)) else s
  }

  /** The pool after a cycle over `n` slots: the slots dequeued before any failure hold their frame. */
  function CycleSlots(r: CycleReplies, n: nat, before: seq<Slot>): (after: seq<Slot>)
    requires n <= CAMERA_NUM_BUFFERS
    ensures |after| == |before|
  {
    seq(|before|, i requires 0 <= i < |before| =>
      if r.streamOn && i < CycleStop(r, n) then Fill(before[i], r.queue[i].frame) else before[i])
  }

  /** The pool while the cycle loop is at slot `index`: the slots below it hold their frames. */
  function FillPrefix(r: CycleReplies, before: seq<Slot>, index: nat): (pool: seq<Slot>)
    requires index <= CAMERA_NUM_BUFFERS
    ensures |pool| == |before|
  {
    seq(|before|, i requires 0 <= i < |before| => if i < index then Fill(before[i], r.queue[i].frame) else before[i])
  }

  lemma FillPrefixStep(r: CycleReplies, before: seq<Slot>, index: nat)
    requires index < |before| && index < CAMERA_NUM_BUFFERS
    ensures FillPrefix(r, before, index)[index := Fill(before[index], r.queue[index].frame)] ==
            FillPrefix(r, before, index + 1)
  {
  }

  lemma FillPrefixAtStop(r: CycleReplies, n: nat, before: seq<Slot>, index: nat)
    requires n <= CAMERA_NUM_BUFFERS && r.streamOn && index == CycleStop(r, n)
    ensures FillPrefix(r, before, index) == CycleSlots(r, n, before)
  {
  }

  // ---------------------------------------------------------------------------
  // Motion and the saved file

  /** `format.fmt.pix.width * format.fmt.pix.height`, a 32-bit unsigned product. */
  function FrameArea(f: PixFormat): nat
  {
    (f.width * f.height) % 0x1_0000_0000
  }

  /**
   * The detector's verdict on a pool: slots 1 and 2 compared over the length
   * of slot 0. Reading a slot without a live mapping is undefined; with a
   * length of 0 nothing is read.
   */
  function MotionVerdict(pool: seq<Slot>, f: PixFormat, threshold: byte): Verdict
    requires |pool| == CAMERA_NUM_BUFFERS
  {
    if pool[0].length > 0 && (pool[1].start != Mapped || pool[2].start != Mapped) then Undefined
    else Judge(pool[1].data, pool[2].data, pool[0].length, FrameArea(f), threshold)
  }

  /**
   * When slot 0 has length 0 the loop reads nothing, whatever slots 1 and 2
   * hold, and a non-zero area gives no motion.
   */
  lemma MotionVerdictEmptyFrame(pool: seq<Slot>, f: PixFormat, threshold: byte)
    requires |pool| == CAMERA_NUM_BUFFERS && pool[0].length == 0
    ensures MotionVerdict(pool, f, threshold) == if FrameArea(f) == 0 then Undefined else Still
  {
  }

  /** Exchanging the contents of slots 1 and 2 never changes the verdict. */
  lemma MotionVerdictSymmetric(pool: seq<Slot>, f: PixFormat, threshold: byte)
    requires |pool| == CAMERA_NUM_BUFFERS
    ensures MotionVerdict(pool, f, threshold) ==
            MotionVerdict([pool[0], pool[2], pool[1]], f, threshold)
  {
    if pool[1].start == Mapped && pool[2].start == Mapped {
      JudgeSymmetric(pool[1].data, pool[2].data, pool[0].length, FrameArea(f), threshold);
    }
  }

  /** Two live slots with equal contents are never motion. */
  lemma MotionVerdictEqualFrames(pool: seq<Slot>, f: PixFormat, threshold: byte)
    requires |pool| == CAMERA_NUM_BUFFERS
    requires pool[1].start == Mapped && pool[2].start == Mapped && pool[1].data == pool[2].data
    requires pool[0].length <= |pool[1].data| && FrameArea(f) > 0
    ensures MotionVerdict(pool, f, threshold) == Still
  {
    JudgeIdentical(pool[1].data, pool[2].data, pool[0].length, FrameArea(f), threshold);
  }

  /** At 640x480 the area is 307200, and a 307200-byte comparison cannot overflow the sum. */
  lemma MotionVerdictAtNegotiatedSize(pool: seq<Slot>, threshold: byte)
    requires |pool| == CAMERA_NUM_BUFFERS
    requires pool[1].start == Mapped && pool[2].start == Mapped
    requires pool[0].length == 307200 <= |pool[1].data| && pool[0].length <= |pool[2].data|
    ensures var f := PixFormat(CAMERA_VIDEO_WIDTH_PX, CAMERA_VIDEO_HEIGHT_PX, V4L2_PIX_FMT_GREY);
      MotionVerdict(pool, f, threshold) != Undefined &&
      (MotionVerdict(pool, f, threshold) == Moved <==>
         DiffSum(pool[1].data, pool[2].data, 307200) >= (threshold + 1) * 307200)
  {
    var f := PixFormat(CAMERA_VIDEO_WIDTH_PX, CAMERA_VIDEO_HEIGHT_PX, V4L2_PIX_FMT_GREY);
    assert FrameArea(f) == 307200;
    JudgeDefined(pool[1].data, pool[2].data, 307200, 307200, threshold);
  }

  /** The image file camera_capture_frame writes: its path and the bytes handed to write(2). */
  datatype FrameFile = NoFile | File(path: seq<char>, bytes: Option<seq<byte>>)

  /** `sprintf(filepath, "%s/%lu.jpeg", save_dir, time(NULL))` */
  function FramePath(saveDir: CString, now: nat): CString
  {
    saveDir + "/" + Decimal(now) + ".jpeg"
  }

  /** The file lies in `saveDir`, ends in ".jpeg", and its stem is the decimal timestamp. */
  lemma FramePathDecodes(saveDir: CString, now: nat)
    ensures var p := FramePath(saveDir, now);
      var stem := p[|saveDir| + 1..|p| - 5];
      && |p| == |saveDir| + |stem| + 6
      && p[..|saveDir| + 1] == saveDir + "/" && p[|p| - 5..] == ".jpeg"
      && (forall i :: 0 <= i < |stem| ==> '0' <= stem[i] <= '9')
      && DecimalValue(stem) == now
  {
    var p := FramePath(saveDir, now);
    assert p[|saveDir| + 1..|p| - 5] == Decimal(now);
    DecimalRoundTrip(now);
  }

  /**
   * The bytes write(2) takes from `buffers[bufrequest.count - 1]`: its whole
   * mapping. A length of 0 writes nothing, whatever the pointer. Undefined
   * (None) when the slot has no live mapping over a non-zero length, or the
   * count is 0, where the index wraps below the array.
   */
  function LastFrame(pool: seq<Slot>, count: nat): Option<seq<byte>>
  {
    if count == 0 || count > |pool| then None
    else if pool[count - 1].length == 0 then Some([])
    else if pool[count - 1].start != Mapped then None
    else Some(pool[count - 1].data)
  }

  /** A last slot of length 0 gives an empty file, whether or not the slot is mapped. */
  lemma LastFrameEmptySlot(pool: seq<Slot>, count: nat)
    requires 0 < count <= |pool| && pool[count - 1].length == 0
    ensures LastFrame(pool, count) == Some([])
  {
  }

  /**
   * A mapped slot 2 whose QUERYBUF fails during a later format switch keeps
   * its old length after release, so the capture that follows writes from a
   * dangling pointer: the bytes are undefined, not an empty file.
   */
  lemma FailedRequeryLeavesDanglingSlot(before: seq<Slot>, alloc: AllocReplies, cycle: CycleReplies)
    requires |before| == CAMERA_NUM_BUFFERS && before[2].start == Mapped && before[2].length > 0
    requires alloc.reqbufs && alloc.granted == CAMERA_NUM_BUFFERS && !alloc.slots[2].queried
    ensures var pool := CycleSlots(cycle, CAMERA_NUM_BUFFERS, SwitchSlots(before, CAMERA_NUM_BUFFERS, alloc));
      && pool[2].start == Unmapped && pool[2].length == before[2].length
      && LastFrame(pool, AllocCount(alloc)) == None
  {
  }

  /** A live last slot gives exactly its mapping, `length` bytes long. */
  lemma LastFrameOfMappedSlot(pool: seq<Slot>, count: nat)
    requires 0 < count <= |pool| && pool[count - 1].start == Mapped && WellFormed(pool[count - 1])
    ensures LastFrame(pool, count) == Some(pool[count - 1].data)
    ensures |LastFrame(pool, count).value| == pool[count - 1].length
  {
  }

  // ---------------------------------------------------------------------------
  // The lazy format switch

  /** The pool after release, set format, allocate. */
  function SwitchSlots(before: seq<Slot>, count: nat, alloc: AllocReplies): (after: seq<Slot>)
    ensures |after| == |before|
  {
    AllocateSlots(alloc, ReleaseSlots(before, count))
  }

  /** The requests of release, set format to `code`, allocate. */
  function SwitchTrace(before: seq<Slot>, count: nat, code: u32, alloc: AllocReplies): seq<Request>
    requires count <= |before|
  {
    UnmapTrace(before, count) + [ReqBufs(0), SFmt(CAMERA_VIDEO_WIDTH_PX, CAMERA_VIDEO_HEIGHT_PX, code)] +
    AllocTrace(alloc)
  }

  /**
   * After a switch on a pool without stale mappings, every live mapping is
   * one this switch's allocation made, with the length the device reported
   * for the new format, and none lies above the new count.
   */
  lemma SwitchLeavesOnlyFreshMappings(before: seq<Slot>, count: nat, alloc: AllocReplies)
    requires NoStale(before, count)
    ensures var after := SwitchSlots(before, count, alloc);
      NoStale(after, AllocCount(alloc)) &&
      forall i :: 0 <= i < |after| && after[i].start == Mapped ==>
        alloc.reqbufs && i < FirstFailure(alloc) && after[i] == Zeroed(alloc.slots[i].length)
  {
    var released := ReleaseSlots(before, count);
    ReleaseLeavesNothingMapped(before, count);
    AllocateKeepsNoStale(alloc, released);
    var after := SwitchSlots(before, count, alloc);
    forall i | 0 <= i < |after| && after[i].start == Mapped
      ensures alloc.reqbufs && i < FirstFailure(alloc) && after[i] == Zeroed(alloc.slots[i].length)
    {
      assert after[i] == AllocatedSlot(alloc, i, released[i]);
    }
  }

  /** The gates of camera_init before it sets the format: open, QUERYCAP and the two capability bits. */
  predicate DeviceGates(r: InitReplies)
  {
    && r.openResult != -1
    && r.queryCap
    && r.capabilities & V4L2_CAP_VIDEO_CAPTURE != 0
    && r.capabilities & V4L2_CAP_STREAMING != 0
  }

  /** The init gates of camera_init, in order; allocation is not one of them. */
  predicate InitGates(r: InitReplies)
  {
    DeviceGates(r) && r.setFmt.FmtAccepted?
  }

  /** The requests of camera_init: each gate is passed before the next request is issued. */
  function InitTrace(r: InitReplies): seq<Request>
  {
    [Open] +
    if r.openResult == -1 then []
    else
      [QueryCap] +
      if !r.queryCap || r.capabilities & V4L2_CAP_VIDEO_CAPTURE == 0 || r.capabilities & V4L2_CAP_STREAMING == 0 then []
      else
        [SFmt(CAMERA_VIDEO_WIDTH_PX, CAMERA_VIDEO_HEIGHT_PX, V4L2_PIX_FMT_GREY)] +
        if r.setFmt.FmtRejected? then [] else AllocTrace(r.alloc)
  }

  /** The module state of camera.c. */
  class Camera {
    var fd: int
    var capabilities: bv32
    var format: PixFormat
    var count: nat               // bufrequest.count
    const buffers: array<Slot>
    var trace: seq<Request>

    ghost predicate Valid()
      reads this, buffers
    {
      && buffers.Length == CAMERA_NUM_BUFFERS
      && count <= CAMERA_NUM_BUFFERS
      && forall i :: 0 <= i < buffers.Length ==> WellFormed(buffers[i])
    }

    /** The mappings of the pool all lie below the request count. */
    ghost predicate NoStaleMapping()
      reads this, buffers
    {
      NoStale(buffers[..], count)
    }

    /** The zero-initialised globals of camera.c before camera_init. */
    constructor ()
      ensures Valid() && fresh(buffers)
      ensures fd == 0 && capabilities == 0 && format == PixFormat(0, 0, 0) && count == 0
      ensures buffers[..] == [Slot(Null, 0, []), Slot(Null, 0, []), Slot(Null, 0, [])]
      ensures trace == []
    {
      fd, capabilities, format, count, trace := 0, 0, PixFormat(0, 0, 0), 0, [];
      buffers := new Slot[CAMERA_NUM_BUFFERS](_ => Slot(Null, 0, []));
      new;
      assert buffers[..] == [buffers[0], buffers[1], buffers[2]];
    }

    /**
     * camera_set_pixel_fmt: always asks for 640x480; an unknown selector
     * returns -1 without issuing S_FMT (width and height are already set).
     */
    method SetPixelFmt(pxfmt: int, reply: FmtReply) returns (rc: int)
      requires Valid()
      modifies this
      ensures Valid()
      ensures fd == old(fd) && capabilities == old(capabilities) && count == old(count)
      ensures RequestedCode(pxfmt).None? ==>
                rc == -1 && trace == old(trace) &&
                format == old(format).(width := CAMERA_VIDEO_WIDTH_PX, height := CAMERA_VIDEO_HEIGHT_PX)
      ensures RequestedCode(pxfmt).Some? ==>
                var code := RequestedCode(pxfmt).value;
                && trace == old(trace) + [SFmt(CAMERA_VIDEO_WIDTH_PX, CAMERA_VIDEO_HEIGHT_PX, code)]
                && format == FormatAfter(reply, code)
                && rc == (if reply.FmtAccepted? then 0 else -1)
    {
      format := format.(width := CAMERA_VIDEO_WIDTH_PX, height := CAMERA_VIDEO_HEIGHT_PX);
      if pxfmt == CAMERA_PIXEL_FMT_GREY {
        format := format.(pixelformat := V4L2_PIX_FMT_GREY);
      } else if pxfmt == CAMERA_PIXEL_FMT_MJPEG {
        format := format.(pixelformat := V4L2_PIX_FMT_MJPEG);
      } else {
        return -1;
      }
      trace := trace + [SFmt(format.width, format.height, format.pixelformat)];
      match reply {
        case FmtRejected =>
          return -1;
        case FmtAccepted(w, h, p) =>
          format := PixFormat(w, h, p);
          return 0;
      }
    }

    /**
     * camera_allocate_buffers: REQBUFS for three MMAP buffers, then QUERYBUF
     * and mmap slot by slot, returning -1 at the first failure without
     * unmapping what is already mapped.
     */
    method AllocateBuffers(r: AllocReplies) returns (rc: int)
      requires Valid()
      modifies this, buffers
      ensures Valid()
      ensures fd == old(fd) && capabilities == old(capabilities) && format == old(format)
      ensures rc == (if AllocSucceeds(r) then 0 else -1)
      ensures count == AllocCount(r)
      ensures trace == old(trace) + AllocTrace(r)
      ensures buffers[..] == AllocateSlots(r, old(buffers[..]))
    {
      ghost var before := buffers[..];
      ghost var t0 := trace;
      count := CAMERA_NUM_BUFFERS;
      trace := trace + [ReqBufs(CAMERA_NUM_BUFFERS)];
      if !r.reqbufs {
        assert buffers[..] == before;
        return -1;
      }
      count := r.granted;
      assert AllocPrefix(r, before, 0) == before;
      for index := 0 to count
        invariant forall k :: 0 <= k < index ==> SlotGranted(r.slots[k])
        invariant index <= FirstFailure(r)
        invariant trace == t0 + ([ReqBufs(CAMERA_NUM_BUFFERS)] + MappedTrace(r, index))
        invariant buffers[..] == AllocPrefix(r, before, index)
        invariant Valid() && count == r.granted
        invariant fd == old(fd) && capabilities == old(capabilities) && format == old(format)
      {
        var mapped := MapSlot(index, r.slots[index]);
        AppendAssoc([ReqBufs(CAMERA_NUM_BUFFERS)], MappedTrace(r, index), SlotTrace(index, r.slots[index]));
        AppendAssoc(t0, [ReqBufs(CAMERA_NUM_BUFFERS)] + MappedTrace(r, index), SlotTrace(index, r.slots[index]));
        if !mapped {
          AllocTraceAt(r, index + 1);
          AllocPrefixAtFailure(r, before, index);
          return -1;
        }
        AllocPrefixStep(r, before, index);
      }
      AllocPrefixComplete(r, before);
      AllocTraceAt(r, count);
      return 0;
    }

    /** One turn of camera_allocate_buffers' loop: QUERYBUF, then mmap and memset of slot `index`. */
    method MapSlot(index: nat, reply: SlotReply) returns (ok: bool)
      requires Valid() && index < CAMERA_NUM_BUFFERS
      modifies this`trace, buffers
      ensures Valid()
      ensures ok == SlotGranted(reply)
      ensures trace == old(trace) + SlotTrace(index, reply)
      ensures buffers[..] == old(buffers[..])[index := MappedSlot(reply, old(buffers[index]))]
    {
      trace := trace + [QueryBuf(index)];
      if !reply.queried {
        return false;
      }
      trace := trace + [Mmap(index, reply.length)];
      if !reply.mapped {
        buffers[index] := buffers[index].(start := MapFailed, length := reply.length);
        return false;
      }
      buffers[index] := Zeroed(reply.length);
      return true;
    }

    /**
     * camera_release_buffers: munmap every slot below the count whose pointer
     * is not NULL, then REQBUFS(0); the count is 0 afterwards whatever the
     * driver answers.
     */
    method ReleaseBuffers(reqbufsOk: bool) returns (rc: int)
      requires Valid()
      modifies this, buffers
      ensures Valid()
      ensures fd == old(fd) && capabilities == old(capabilities) && format == old(format)
      ensures rc == (if reqbufsOk then 0 else -1)
      ensures count == 0
      ensures trace == old(trace) + UnmapTrace(old(buffers[..]), old(count)) + [ReqBufs(0)]
      ensures buffers[..] == ReleaseSlots(old(buffers[..]), old(count))
      ensures old(NoStaleMapping()) ==> forall i :: 0 <= i < buffers.Length ==> buffers[i].start != Mapped
    {
      ghost var before := buffers[..];
      assert ReleaseSlots(before, 0) == before;
      for index := 0 to count
        invariant trace == old(trace) + UnmapTrace(before, index)
        invariant buffers[..] == ReleaseSlots(before, index)
        invariant Valid() && count == old(count)
        invariant fd == old(fd) && capabilities == old(capabilities) && format == old(format)
      {
        if buffers[index].start != Null {
          trace := trace + [Munmap(index, buffers[index].length)];
          buffers[index] := Unmap(buffers[index]);
        }
        assert buffers[..] == ReleaseSlots(before, index + 1);
      }
      if old(NoStaleMapping()) {
        ReleaseLeavesNothingMapped(before, count);
      }
      count := 0;
      trace := trace + [ReqBufs(0)];
      rc := if reqbufsOk then 0 else -1;
    }

    /** Two releases in a row: the second finds a count of 0 and unmaps nothing. */
    method ReleaseTwice(first: bool, second: bool)
      requires Valid()
      modifies this, buffers
      ensures Valid() && count == 0
      ensures trace == old(trace) + UnmapTrace(old(buffers[..]), old(count)) + [ReqBufs(0), ReqBufs(0)]
      ensures buffers[..] == ReleaseSlots(old(buffers[..]), old(count))
    {
      var rc1 := ReleaseBuffers(first);
      var rc2 := ReleaseBuffers(second);
      assert ReleaseSlots(ReleaseSlots(old(buffers[..]), old(count)), 0) == ReleaseSlots(old(buffers[..]), old(count));
    }

    /**
     * camera_init: open, QUERYCAP, the two capability bits and setting GREY
     * are gates whose first failure returns -1; a failed allocation does not
     * change the 0 it returns.
     */
    method Init(r: InitReplies) returns (rc: int)
      requires Valid()
      modifies this, buffers
      ensures Valid()
      ensures rc == (if InitGates(r) then 0 else -1)
      ensures trace == old(trace) + InitTrace(r)
      ensures fd == r.openResult
      ensures capabilities == if r.openResult != -1 && r.queryCap then r.capabilities else old(capabilities)
      ensures format == if DeviceGates(r) then FormatAfter(r.setFmt, V4L2_PIX_FMT_GREY) else old(format)
      ensures rc == 0 ==>
                && format == FormatAfter(r.setFmt, V4L2_PIX_FMT_GREY)
                && count == AllocCount(r.alloc)
                && buffers[..] == AllocateSlots(r.alloc, old(buffers[..]))
      ensures rc == -1 ==> count == old(count) && buffers[..] == old(buffers[..])
    {
      fd := r.openResult;
      trace := trace + [Open];
      if fd == -1 {
        return -1;
      }
      trace := trace + [QueryCap];
      if !r.queryCap {
        return -1;
      }
      capabilities := r.capabilities;
      if capabilities & V4L2_CAP_VIDEO_CAPTURE == 0 {
        return -1;
      }
      if capabilities & V4L2_CAP_STREAMING == 0 {
        return -1;
      }
      var setRc := SetPixelFmt(CAMERA_PIXEL_FMT_GREY, r.setFmt);
      if setRc < 0 {
        return -1;
      }
      var allocRc := AllocateBuffers(r.alloc);
      return 0;
    }

    /**
     * The lazy switch both capture functions start with: release, set the
     * format, allocate, only when the current pixel format differs from
     * `code`; the three results are ignored.
     */
    method SwitchFormat(pxfmt: int, r: SwitchReplies)
      requires Valid()
      requires RequestedCode(pxfmt).Some?
      modifies this, buffers
      ensures Valid()
      ensures fd == old(fd) && capabilities == old(capabilities)
      ensures var code := RequestedCode(pxfmt).value;
        if old(format.pixelformat) == code then
          format == old(format) && count == old(count) && trace == old(trace) &&
          buffers[..] == old(buffers[..])
        else
          && format == FormatAfter(r.setFmt, code)
          && count == AllocCount(r.alloc)
          && trace == old(trace) + SwitchTrace(old(buffers[..]), old(count), code, r.alloc)
          && buffers[..] == SwitchSlots(old(buffers[..]), old(count), r.alloc)
      ensures old(NoStaleMapping()) ==> NoStaleMapping()
    {
      var code := RequestedCode(pxfmt).value;
      if format.pixelformat != code {
        ghost var before := buffers[..];
        ghost var n := count;
        ghost var t0 := trace;
        ghost var wasClean := NoStaleMapping();
        var released := ReleaseBuffers(r.release);
        ghost var afterRelease := buffers[..];
        var setRc := SetPixelFmt(pxfmt, r.setFmt);
        var allocRc := AllocateBuffers(r.alloc);
        assert trace == t0 + SwitchTrace(before, n, code, r.alloc);
        if wasClean {
          AllocateKeepsNoStale(r.alloc, afterRelease);
        }
      }
    }

    /** STREAMON, QBUF and DQBUF for each slot below the count, then STREAMOFF; -1 at once on any failure. */
    method StreamCycle(r: CycleReplies) returns (ok: bool)
      requires Valid()
      modifies this, buffers
      ensures Valid()
      ensures fd == old(fd) && capabilities == old(capabilities) && format == old(format) && count == old(count)
      ensures ok == CycleOk(r, count)
      ensures trace == old(trace) + CycleTrace(r, count)
      ensures buffers[..] == CycleSlots(r, count, old(buffers[..]))
    {
      ghost var before := buffers[..];
      ghost var t0 := trace;
      trace := trace + [StreamOn];
      if !r.streamOn {
        assert buffers[..] == CycleSlots(r, count, before);
        return false;
      }
      assert FillPrefix(r, before, 0) == before;
      for index := 0 to count
        invariant Valid() && index <= CycleStop(r, count)
        invariant trace == t0 + ([StreamOn] + ServedTrace(r, index))
        invariant buffers[..] == FillPrefix(r, before, index)
        invariant fd == old(fd) && capabilities == old(capabilities) && format == old(format) && count == old(count)
      {
        var served := QueueSlot(index, r.queue[index]);
        AppendAssoc([StreamOn], ServedTrace(r, index), QueueStep(index, r.queue[index]));
        AppendAssoc(t0, [StreamOn] + ServedTrace(r, index), QueueStep(index, r.queue[index]));
        if !served {
          CycleTraceAtFailure(r, count, index);
          FillPrefixAtStop(r, count, before, index);
          return false;
        }
        FillPrefixStep(r, before, index);
      }
      CycleTraceComplete(r, count);
      FillPrefixAtStop(r, count, before, count);
      trace := trace + [StreamOff];
      AppendAssoc(t0, [StreamOn] + ServedTrace(r, count), [StreamOff]);
      return r.streamOff;
    }

    /** One turn of the capture loop: QBUF of slot `index`, then DQBUF of it. */
    method QueueSlot(index: nat, q: QueueReply) returns (served: bool)
      requires Valid() && index < CAMERA_NUM_BUFFERS
      modifies this`trace, buffers
      ensures Valid()
      ensures served == Served(q)
      ensures trace == old(trace) + QueueStep(index, q)
      ensures buffers[..] == if served then old(buffers[..])[index := Fill(old(buffers[index]), q.frame)] else old(buffers[..])
    {
      trace := trace + [QBuf(index)];
      if !q.qbuf {
        return false;
      }
      trace := trace + [DQBuf(index)];
      if !q.dqbuf {
        return false;
      }
      buffers[index] := Fill(buffers[index], q.frame);
      return true;
    }

    /**
     * camera_capture_frame: switch to MJPEG if needed, run one cycle, and on
     * success write slot count-1's whole mapping, with no header, to
     * `<save_dir>/<now>.jpeg`.
     */
    method CaptureFrame(saveDir: CString, now: nat, sw: SwitchReplies, cycle: CycleReplies, fileOpened: bool)
      returns (rc: int, file: FrameFile)
      requires Valid()
      modifies this, buffers
      ensures Valid()
      ensures old(NoStaleMapping()) ==> NoStaleMapping()
      ensures fd == old(fd) && capabilities == old(capabilities)
      ensures var switched := old(format.pixelformat) != V4L2_PIX_FMT_MJPEG;
        && format == (if switched then FormatAfter(sw.setFmt, V4L2_PIX_FMT_MJPEG) else old(format))
        && count == (if switched then AllocCount(sw.alloc) else old(count))
        && trace == old(trace) +
             (if switched then SwitchTrace(old(buffers[..]), old(count), V4L2_PIX_FMT_MJPEG, sw.alloc) else []) +
             CycleTrace(cycle, count)
        && buffers[..] == CycleSlots(cycle, count,
             if switched then SwitchSlots(old(buffers[..]), old(count), sw.alloc) else old(buffers[..]))
      ensures rc == (if CycleOk(cycle, count) && fileOpened then 0 else -1)
      ensures file == (if CycleOk(cycle, count) && fileOpened
                       then File(FramePath(saveDir, now), LastFrame(buffers[..], count))
                       else NoFile)
    {
      SwitchFormat(CAMERA_PIXEL_FMT_MJPEG, sw);
      var ok := StreamCycle(cycle);
      if !ok {
        return -1, NoFile;
      }
      var path := FramePath(saveDir, now);
      if !fileOpened {
        return -1, NoFile;
      }
      var bytes: Option<seq<byte>> := None;
      if count > 0 {
        if buffers[count - 1].length == 0 {
          bytes := Some([]);
        } else if buffers[count - 1].start == Mapped {
          bytes := Some(buffers[count - 1].data);
        }
      }
      return 0, File(path, bytes);
    }

    /**
     * camera_detect_motion: switch to GREY if needed, run one cycle, then
     * compare slots 1 and 2 over slot 0's length against the threshold.
     */
    method DetectMotion(threshold: byte, sw: SwitchReplies, cycle: CycleReplies) returns (v: Verdict)
      requires Valid()
      modifies this, buffers
      ensures Valid()
      ensures old(NoStaleMapping()) ==> NoStaleMapping()
      ensures fd == old(fd) && capabilities == old(capabilities)
      ensures var switched := old(format.pixelformat) != V4L2_PIX_FMT_GREY;
        && format == (if switched then FormatAfter(sw.setFmt, V4L2_PIX_FMT_GREY) else old(format))
        && count == (if switched then AllocCount(sw.alloc) else old(count))
        && trace == old(trace) +
             (if switched then SwitchTrace(old(buffers[..]), old(count), V4L2_PIX_FMT_GREY, sw.alloc) else []) +
             CycleTrace(cycle, count)
        && buffers[..] == CycleSlots(cycle, count,
             if switched then SwitchSlots(old(buffers[..]), old(count), sw.alloc) else old(buffers[..]))
      ensures v == (if CycleOk(cycle, count) then MotionVerdict(buffers[..], format, threshold) else CaptureFailed)
    {
      SwitchFormat(CAMERA_PIXEL_FMT_GREY, sw);
      var ok := StreamCycle(cycle);
      if !ok {
        return CaptureFailed;
      }
      v := Compare(threshold);
    }

    /**
     * The tail of camera_detect_motion: the difference sum of slots 1 and 2
     * over slot 0's length, divided by the frame area and compared with the
     * threshold.
     */
    method Compare(threshold: byte) returns (v: Verdict)
      requires Valid()
      ensures v == MotionVerdict(buffers[..], format, threshold)
    {
      var first := buffers[1];
      var second := buffers[CAMERA_NUM_BUFFERS - 1];
      var n := buffers[0].length;
      var area := (format.width * format.height) % 0x1_0000_0000;
      if (n > 0 && (first.start != Mapped || second.start != Mapped)) || n > |first.data| || n > |second.data| || area == 0 {
        return Undefined;
      }
      var sum := SumAbsDiff(first.data, second.data, n);
      if sum > INT_MAX {
        return Undefined;
      }
      v := if sum / area > threshold then Moved else Still;
    }
  }
}
