/**
 * The bounded circular queue of HID report records shared by the two cores
 * (src_fw/picow_ble_usb_hid_bridge/Common.c).
 *
 * The firmware keeps one control block (`head`, `tail`, `max`, buffer pointer) and a
 * static array of 32 records. Every operation runs under a spin lock; here each
 * operation is one atomic step. The first half of the module is a value model of the
 * control block and its storage (QueueState) with the abstract contents it stands for;
 * the second half is the class whose methods update the fields in place and are proved
 * against that value model.
 */
module Common {

  import opened CommonDefs

  /** The control block of the HID queue together with the records of its storage. */
  datatype QueueState = QueueState(head: nat, tail: nat, max: nat, slots: seq<HidReport>)

  /**
   * The control block invariant: indices stay inside the storage; before `CMN_Init` has
   * set `max`, the block is still all-zero (static initialisation).
   */
  ghost predicate Valid(q: QueueState)
  {
    |q.slots| == QUE_DATA_MAX_HID_RPT &&
    q.head < QUE_DATA_MAX_HID_RPT && q.tail < QUE_DATA_MAX_HID_RPT &&
    (q.max == QUE_DATA_MAX_HID_RPT || (q.max == 0 && q.head == 0 && q.tail == 0))
  }

  /** `max` has been set by `CMN_Init`, so the modulo in the index updates is defined. */
  predicate Initialised(q: QueueState)
  {
    q.max == QUE_DATA_MAX_HID_RPT
  }

  /** The emptiness test of dequeue, peek and advance. */
  predicate IsEmpty(q: QueueState)
  {
    q.head == q.tail
  }

  /**
   * The index after `i` in the ring of slots: the `(i + 1) % max` of the firmware once
   * `max` is set.
   */
  function Next(i: nat): nat
  {
    (i + 1) % QUE_DATA_MAX_HID_RPT
  }

  /** The fullness test of enqueue: one slot is kept free to tell full from empty. */
  predicate IsFull(q: QueueState)
    requires Initialised(q)
  {
    q.head == Next(q.tail)
  }

  /**
   * The elements of a ring buffer `s` from index `head` up to, not including, index
   * `tail`, wrapping past the end of `s`.
   */
  ghost function Window<T>(s: seq<T>, head: nat, tail: nat): seq<T>
    requires head < |s| && tail < |s|
  {
    if head <= tail then s[head..tail] else s[head..] + s[..tail]
  }

  /** A window spans the distance from `head` forward to `tail`, and so is never the whole ring. */
  lemma WindowLength<T>(s: seq<T>, head: nat, tail: nat)
    requires |s| == QUE_DATA_MAX_HID_RPT && head < |s| && tail < |s|
    ensures |Window(s, head, tail)| == (tail - head) % QUE_DATA_MAX_HID_RPT
    ensures |Window(s, head, tail)| < |s|
  {
  }

  /** Storing at `tail` and advancing it appends to the window, as long as `tail` does not run into `head`. */
  lemma WindowPush<T>(s: seq<T>, head: nat, tail: nat, x: T)
    requires |s| == QUE_DATA_MAX_HID_RPT && head < |s| && tail < |s| && Next(tail) != head
    ensures Window(s[tail := x], head, Next(tail)) == Window(s, head, tail) + [x]
  {
    if tail + 1 < |s| {
      assert Next(tail) == tail + 1;
      if head <= tail {
        PushInside(s, head, tail, x);
      } else {
        PushWrapped(s, head, tail, x);
      }
    } else {
      assert Next(tail) == 0;
      PushAtEnd(s, head, x);
    }
  }

  lemma PushInside<T>(s: seq<T>, head: nat, tail: nat, x: T)
    requires head <= tail && tail + 1 < |s|
    ensures s[tail := x][head..tail + 1] == s[head..tail] + [x]
  {
  }

  lemma PushWrapped<T>(s: seq<T>, head: nat, tail: nat, x: T)
    requires tail + 1 < head < |s|
    ensures s[tail := x][head..] + s[tail := x][..tail + 1] == s[head..] + s[..tail] + [x]
  {
    var s' := s[tail := x];
    assert s'[head..] == s[head..];
    assert s'[..tail + 1] == s[..tail] + [x];
  }

  lemma PushAtEnd<T>(s: seq<T>, head: nat, x: T)
    requires 0 < head < |s|
    ensures s[|s| - 1 := x][head..] + s[|s| - 1 := x][..0] == s[head..|s| - 1] + [x]
  {
    var s' := s[|s| - 1 := x];
    assert s'[head..] == s[head..|s| - 1] + [x];
  }

  /** Advancing `head` drops the element at `head`, which is the first of the window. */
  lemma WindowPop<T>(s: seq<T>, head: nat, tail: nat)
    requires |s| == QUE_DATA_MAX_HID_RPT && head < |s| && tail < |s| && head != tail
    ensures Window(s, head, tail)[0] == s[head]
    ensures Window(s, Next(head), tail) == Window(s, head, tail)[1..]
  {
    if head < tail {
      assert Next(head) == head + 1;
      assert s[head + 1..tail] == s[head..tail][1..];
    } else if head + 1 < |s| {
      assert Next(head) == head + 1;
      PopWrapped(s, head, tail);
    } else {
      assert Next(head) == 0;
      PopAtEnd(s, tail);
    }
  }

  lemma PopWrapped<T>(s: seq<T>, head: nat, tail: nat)
    requires tail < head && head + 1 < |s|
    ensures (s[head..] + s[..tail])[0] == s[head]
    ensures (s[head..] + s[..tail])[1..] == s[head + 1..] + s[..tail]
  {
  }

  lemma PopAtEnd<T>(s: seq<T>, tail: nat)
    requires tail < |s| - 1
    ensures (s[|s| - 1..] + s[..tail])[1..] == s[0..tail]
  {
    assert s[|s| - 1..] == [s[|s| - 1]];
  }

  /** The records resident in the queue, oldest first: the slots from `head` up to `tail`, wrapping. */
  ghost function Contents(q: QueueState): seq<HidReport>
    requires Valid(q)
  {
    Window(q.slots, q.head, q.tail)
  }

  /** Never more than `max - 1` records are resident; empty and full are told apart by the indices alone. */
  lemma ContentsBounds(q: QueueState)
    requires Valid(q)
    ensures |Contents(q)| <= QUE_DATA_MAX_HID_RPT - 1
    ensures |Contents(q)| == 0 <==> IsEmpty(q)
    ensures Initialised(q) ==> (|Contents(q)| == QUE_DATA_MAX_HID_RPT - 1 <==> IsFull(q))
  {
    WindowLength(q.slots, q.head, q.tail);
  }

  /** `CMN_Init`: sets the capacity; indices and storage are left as they are. */
  function Initialise(q: QueueState): (q': QueueState)
    requires Valid(q)
    ensures Valid(q') && Initialised(q')
    ensures q'.head == q.head && q'.tail == q.tail && q'.slots == q.slots
    ensures Contents(q') == Contents(q)
  {
    q.(max := QUE_DATA_MAX_HID_RPT)
  }

  /**
   * `CMN_Enqueue`: on a full queue nothing changes; otherwise the record is stored at
   * `tail` and `tail` advances modulo `max`.
   */
  function Enqueued(q: QueueState, r: HidReport): (q': QueueState)
    requires Valid(q) && Initialised(q)
    ensures Valid(q') && Initialised(q')
    ensures IsFull(q) ==> q' == q
    ensures !IsFull(q) ==> Contents(q') == Contents(q) + [r]
  {
    if IsFull(q) then q
    else
      var q' := q.(slots := q.slots[q.tail := r], tail := Next(q.tail));
      EnqueueAppends(q, r, q');
      q'
  }

  lemma EnqueueAppends(q: QueueState, r: HidReport, q': QueueState)
    requires Valid(q) && Initialised(q) && !IsFull(q)
    requires q' == q.(slots := q.slots[q.tail := r], tail := Next(q.tail))
    ensures Valid(q') && Contents(q') == Contents(q) + [r]
  {
    WindowPush(q.slots, q.head, q.tail, r);
  }

  /** The record a dequeue or a peek copies out: the one at `head`, which is the oldest resident. */
  function Front(q: QueueState): (r: HidReport)
    requires Valid(q) && !IsEmpty(q)
    ensures r == Contents(q)[0]
  {
    q.slots[q.head]
  }

  /**
   * The state after `CMN_Dequeue` or `CMN_AdvanceQueue`: on an empty queue nothing changes;
   * otherwise `head` advances modulo `max` and `tail` and the storage are untouched.
   */
  function Dequeued(q: QueueState): (q': QueueState)
    requires Valid(q)
    ensures Valid(q')
    ensures Initialised(q') == Initialised(q)
    ensures IsEmpty(q) ==> q' == q
    ensures !IsEmpty(q) ==> Contents(q') == Contents(q)[1..]
  {
    if IsEmpty(q) then q
    else
      var q' := q.(head := Next(q.head));
      DequeueDrops(q, q');
      q'
  }

  lemma DequeueDrops(q: QueueState, q': QueueState)
    requires Valid(q) && !IsEmpty(q)
    requires q' == q.(head := Next(q.head))
    ensures Valid(q') && Contents(q') == Contents(q)[1..]
  {
    WindowPop(q.slots, q.head, q.tail);
  }

  /** `CMN_ClearQueue`: both indices back to zero, storage and capacity untouched. */
  function Cleared(q: QueueState): (q': QueueState)
    requires Valid(q)
    ensures Valid(q') && IsEmpty(q') && Contents(q') == []
    ensures q'.slots == q.slots && q'.max == q.max
  {
    q.(head := 0, tail := 0)
  }

  // ---------------------------------------------------------------------------------
  // Sequences of operations

  /** The producer pushing `rs` one record after another, each push dropped when the queue is full. */
  function EnqueueAll(q: QueueState, rs: seq<HidReport>): (q': QueueState)
    requires Valid(q) && Initialised(q)
    ensures Valid(q') && Initialised(q')
    decreases |rs|
  {
    if rs == [] then q else EnqueueAll(Enqueued(q, rs[0]), rs[1..])
  }

  /** How many of the pushes of `rs` are accepted. */
  function Accepted(q: QueueState, rs: seq<HidReport>): nat
    requires Valid(q) && Initialised(q)
    decreases |rs|
  {
    if rs == [] then 0
    else (if IsFull(q) then 0 else 1) + Accepted(Enqueued(q, rs[0]), rs[1..])
  }

  /** The number of free slots: pushes beyond it are rejected. */
  ghost function Room(q: QueueState): nat
    requires Valid(q)
  {
    ContentsBounds(q);
    QUE_DATA_MAX_HID_RPT - 1 - |Contents(q)|
  }

  /**
   * Drop-on-full: of a burst of pushes, exactly the first `Room(q)` are accepted and
   * appended in order; the rest are dropped and the queue never grows past 31 records.
   */
  lemma EnqueueAllDropsOnFull(q: QueueState, rs: seq<HidReport>)
    requires Valid(q) && Initialised(q)
    ensures Accepted(q, rs) == Min(|rs|, Room(q))
    ensures Contents(EnqueueAll(q, rs)) == Contents(q) + rs[..Min(|rs|, Room(q))]
  {
    AcceptedUpToRoom(q, rs);
    AppendsUpToRoom(q, rs);
  }

  /** Exactly as many pushes of a burst are accepted as there are free slots, or the whole burst. */
  lemma {:induction false} AcceptedUpToRoom(q: QueueState, rs: seq<HidReport>)
    requires Valid(q) && Initialised(q)
    ensures Accepted(q, rs) == Min(|rs|, Room(q))
    decreases |rs|
  {
    if rs != [] {
      var q1 := Enqueued(q, rs[0]);
      AcceptedUpToRoom(q1, rs[1..]);
      if IsFull(q) {
        ContentsBounds(q);
      } else {
        RoomAfterPush(q, rs[0]);
        PushStep(q, rs);
      }
    }
  }

  /** The accepted pushes of a burst are appended in order. */
  lemma {:induction false} AppendsUpToRoom(q: QueueState, rs: seq<HidReport>)
    requires Valid(q) && Initialised(q)
    ensures Contents(EnqueueAll(q, rs)) == Contents(q) + rs[..Min(|rs|, Room(q))]
    decreases |rs|
  {
    if rs != [] {
      var q1 := Enqueued(q, rs[0]);
      AppendsUpToRoom(q1, rs[1..]);
      var k := Min(|rs|, Room(q));
      if IsFull(q) {
        ContentsBounds(q);
        assert k == 0 && rs[1..][..0] == rs[..0];
      } else {
        RoomAfterPush(q, rs[0]);
        assert Min(|rs| - 1, Room(q1)) == k - 1;
        PushStep(q, rs);
        AppendThenPrefix(Contents(q), rs, k);
      }
    }
  }

  /** The first push of a burst into a queue with room is accepted; the rest of the burst follows it. */
  lemma PushStep(q: QueueState, rs: seq<HidReport>)
    requires Valid(q) && Initialised(q) && rs != [] && !IsFull(q)
    ensures Accepted(q, rs) == 1 + Accepted(Enqueued(q, rs[0]), rs[1..])
    ensures EnqueueAll(q, rs) == EnqueueAll(Enqueued(q, rs[0]), rs[1..])
  {
  }

  /** An accepted push takes one free slot. */
  lemma RoomAfterPush(q: QueueState, r: HidReport)
    requires Valid(q) && Initialised(q) && !IsFull(q)
    ensures 0 < Room(q) && Room(Enqueued(q, r)) == Room(q) - 1
  {
    ContentsBounds(q);
  }

  /** The first element of `rs` appended, then `k - 1` more of it, is `k` of it appended. */
  lemma AppendThenPrefix<T>(c: seq<T>, rs: seq<T>, k: nat)
    requires 0 < k <= |rs|
    ensures (c + [rs[0]]) + rs[1..][..k - 1] == c + rs[..k]
  {
    assert rs[..k] == [rs[0]] + rs[1..][..k - 1];
  }

  lemma Assoc<T>(a: seq<T>, b: seq<T>, c: seq<T>)
    ensures a + b + c == a + (b + c)
  {
  }

  function Min(a: nat, b: nat): nat
  {
    if a < b then a else b
  }

  /** With 32 slots, 31 pushes into an empty queue are accepted and fill it; the 32nd is rejected. */
  lemma ThirtyTwoPushesIntoEmpty(q: QueueState, rs: seq<HidReport>)
    requires Valid(q) && Initialised(q) && IsEmpty(q) && |rs| == QUE_DATA_MAX_HID_RPT
    ensures Accepted(q, rs[..31]) == 31 && IsFull(EnqueueAll(q, rs[..31]))
    ensures Enqueued(EnqueueAll(q, rs[..31]), rs[31]) == EnqueueAll(q, rs[..31])
    ensures Accepted(q, rs) == 31 && Contents(EnqueueAll(q, rs)) == rs[..31]
  {
    ContentsBounds(q);
    EnqueueAllDropsOnFull(q, rs[..31]);
    EnqueueAllDropsOnFull(q, rs);
    ContentsBounds(EnqueueAll(q, rs[..31]));
    assert rs[..31][..31] == rs[..31];
  }

  /** The records `n` consumer dequeues copy out, in the order they come out. */
  function Drain(q: QueueState, n: nat): seq<HidReport>
    requires Valid(q)
    decreases n
  {
    if n == 0 || IsEmpty(q) then [] else [Front(q)] + Drain(Dequeued(q), n - 1)
  }

  /** Dequeues return the resident records oldest first, and stop returning once the queue is empty. */
  lemma {:induction false} DrainIsPrefix(q: QueueState, n: nat)
    requires Valid(q)
    ensures Drain(q, n) == Contents(q)[..Min(n, |Contents(q)|)]
    decreases n
  {
    if n != 0 && !IsEmpty(q) {
      var q1 := Dequeued(q);
      DrainIsPrefix(q1, n - 1);
      assert Drain(q, n) == [Front(q)] + Drain(q1, n - 1);
      ConsPrefix(Contents(q), n);
    }
  }

  /** One step of the drain: the front element followed by a prefix of the rest is a prefix. */
  lemma ConsPrefix<T>(c: seq<T>, n: nat)
    requires 0 < |c| && 0 < n
    ensures [c[0]] + c[1..][..Min(n - 1, |c[1..]|)] == c[..Min(n, |c|)]
  {
    assert c[..Min(n, |c|)] == [c[0]] + c[1..][..Min(n - 1, |c[1..]|)];
  }

  /** FIFO: records pushed into an empty queue (at most 31) come out of it in the same order. */
  lemma FifoRoundTrip(q: QueueState, rs: seq<HidReport>)
    requires Valid(q) && Initialised(q) && IsEmpty(q) && |rs| < QUE_DATA_MAX_HID_RPT
    ensures Drain(EnqueueAll(q, rs), |rs|) == rs
  {
    ContentsBounds(q);
    EnqueueAllDropsOnFull(q, rs);
    DrainIsPrefix(EnqueueAll(q, rs), |rs|);
    assert rs[..|rs|] == rs;
  }

  // ---------------------------------------------------------------------------------
  // The queue as the firmware keeps it: a control block updated in place over a static array

  /**
   * The HID report queue `f_astQue[CMN_QUE_KIND_HID_RPT]` with its storage
   * `f_astQueData_hid`. The storage array is fixed for the lifetime of the program.
   */
  class HidReportQueue {
    var head: nat
    var tail: nat
    var max: nat
    const buf: array<HidReport>

    /** The control block and storage as a value. */
    ghost function State(): QueueState
      reads this, buf
    {
      QueueState(head, tail, max, buf[..])
    }

    ghost predicate Inv()
      reads this, buf
    {
      Valid(State())
    }

    /** The zero-initialised static control block and storage, before `CMN_Init`. */
    constructor ()
      ensures Inv() && fresh(buf) && !Initialised(State())
      ensures head == 0 && tail == 0 && max == 0
      ensures forall i :: 0 <= i < buf.Length ==> buf[i] == ZeroReport()
      ensures Contents(State()) == []
    {
      head, tail, max := 0, 0, 0;
      buf := new HidReport[QUE_DATA_MAX_HID_RPT](_ => ZeroReport());
    }

    /** `CMN_Init`: attaches the storage and sets the capacity to 32. */
    method Init()
      requires Inv()
      modifies this
      ensures Inv() && Initialised(State())
      ensures State() == Initialise(old(State()))
    {
      max := QUE_DATA_MAX_HID_RPT;
    }

    /** `CMN_Enqueue`: copies `r` into the slot at `tail` unless the queue is full. */
    method Enqueue(r: HidReport) returns (ok: bool)
      requires Inv() && Initialised(State())
      modifies this, buf
      ensures Inv() && Initialised(State())
      ensures ok == !IsFull(old(State()))
      ensures State() == Enqueued(old(State()), r)
      ensures ok ==> head == old(head) && tail == (old(tail) + 1) % max && buf[old(tail)] == r
      ensures ok ==> forall i :: 0 <= i < buf.Length && i != old(tail) ==> buf[i] == old(buf[i])
      ensures !ok ==> head == old(head) && tail == old(tail) && buf[..] == old(buf[..])
      ensures Contents(State()) == if ok then old(Contents(State())) + [r] else old(Contents(State()))
    {
      if head == (tail + 1) % max {
        ok := false;
      } else {
        buf[tail] := r;
        tail := (tail + 1) % max;
        ok := true;
      }
    }

    /**
     * `CMN_Dequeue`: copies the record at `head` over the caller's buffer `dest` and
     * advances `head`; on an empty queue `dest` comes back untouched.
     */
    method Dequeue(dest: HidReport) returns (ok: bool, out: HidReport)
      requires Inv()
      modifies this
      ensures Inv()
      ensures ok == !IsEmpty(old(State()))
      ensures ok ==> out == old(Contents(State()))[0] && out == old(buf[head])
      ensures !ok ==> out == dest
      ensures State() == Dequeued(old(State()))
      ensures tail == old(tail) && max == old(max)
      ensures Contents(State()) == if ok then old(Contents(State()))[1..] else old(Contents(State()))
    {
      if head == tail {
        ok, out := false, dest;
      } else {
        out := buf[head];
        assert max == QUE_DATA_MAX_HID_RPT;
        head := (head + 1) % max;
        ok := true;
      }
    }

    /** `CMN_PeekQueue`: the record a dequeue would return, without moving any index. */
    method Peek(dest: HidReport) returns (ok: bool, out: HidReport)
      requires Inv()
      ensures ok == !IsEmpty(State())
      ensures ok ==> out == Front(State()) && out == Contents(State())[0]
      ensures !ok ==> out == dest
    {
      if head == tail {
        ok, out := false, dest;
      } else {
        out := buf[head];
        ok := true;
      }
    }

    /** `CMN_AdvanceQueue`: drops the oldest record, if there is one, exactly as a dequeue would. */
    method Advance()
      requires Inv()
      modifies this
      ensures Inv()
      ensures State() == Dequeued(old(State()))
      ensures tail == old(tail) && max == old(max)
      ensures Contents(State()) == if old(IsEmpty(State())) then old(Contents(State())) else old(Contents(State()))[1..]
    {
      if head != tail {
        assert max == QUE_DATA_MAX_HID_RPT;
        head := (head + 1) % max;
      }
    }

    /** `CMN_ClearQueue`: resets both indices, discarding whatever was resident. */
    method Clear()
      requires Inv()
      modifies this
      ensures Inv()
      ensures head == 0 && tail == 0 && max == old(max)
      ensures State() == Cleared(old(State()))
      ensures Contents(State()) == []
    {
      head := 0;
      tail := 0;
    }
  }
}
