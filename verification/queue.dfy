/** A channel as the driver keeps it: the message in progress, and a byte ring holding the queued
    messages at their own sizes. Every method is proved to do to the state what channels.dfy says. */
module Queue {
  import opened Bytes
  import opened Proto
  import opened Channels
  import opened Ring

  /** The six header fields in front of a queued message. */
  function Header(m: Msg): (h: seq<byte>)
    requires |m.data| <= MSG_MAX
    ensures |h| == QHDR
  {
    Be32(m.protocol) + Be32(m.rx.Word()) + Be32(m.txFlags) + Be32(m.timestamp) + Be32(|m.data|) + Be32(m.extra)
  }

  /** The field of a header that starts at `at`. */
  function FieldAt(h: seq<byte>, at: nat): u32
    requires at + 4 <= |h|
  {
    ReadBe32(h[at..at + 4])
  }

  lemma HeaderFields(m: Msg)
    requires |m.data| <= MSG_MAX
    ensures var h := Header(m);
            && FieldAt(h, 0) == m.protocol && FieldAt(h, 4) == m.rx.Word() && FieldAt(h, 8) == m.txFlags
            && FieldAt(h, 12) == m.timestamp && FieldAt(h, 16) == |m.data| && FieldAt(h, 20) == m.extra
  {
    hide Be32, ReadBe32;
    var h := Header(m);
    FieldIs(h, 0, m.protocol);
    FieldIs(h, 4, m.rx.Word());
    FieldIs(h, 8, m.txFlags);
    FieldIs(h, 12, m.timestamp);
    FieldIs(h, 16, |m.data|);
    FieldIs(h, 20, m.extra);
  }

  lemma FieldIs(h: seq<byte>, at: nat, w: u32)
    requires at + 4 <= |h| && h[at..at + 4] == Be32(w)
    ensures FieldAt(h, at) == w
  {
    Be32RoundTrip(w, []);
    assert Be32(w) + [] == Be32(w);
  }

  /** The status bits survive being stored as a word. */
  lemma StatusRoundTrip(rx: RxStatus)
    ensures StatusOfWord(rx.Word()) == rx
  {
  }

  /** The bytes of a queue, oldest message first. */
  function Serial(queue: seq<Msg>): seq<byte>
    requires forall i | 0 <= i < |queue| :: |queue[i].data| <= MSG_MAX
  {
    if queue == [] then [] else Header(queue[0]) + queue[0].data + Serial(queue[1..])
  }

  lemma {:induction false} SerialAppends(queue: seq<Msg>, m: Msg)
    requires |m.data| <= MSG_MAX && forall i | 0 <= i < |queue| :: |queue[i].data| <= MSG_MAX
    ensures Serial(queue + [m]) == Serial(queue) + (Header(m) + m.data)
  {
    hide Header;
    if queue == [] {
      assert [] + [m] == [m] && [m][1..] == [];
    } else {
      SerialAppends(queue[1..], m);
      assert (queue + [m])[1..] == queue[1..] + [m];
      assert (queue + [m])[0] == queue[0];
    }
  }

  lemma {:induction false} SerialLength(queue: seq<Msg>)
    requires forall i | 0 <= i < |queue| :: |queue[i].data| <= MSG_MAX
    ensures |Serial(queue)| == QueueBytes(queue)
  {
    if queue != [] {
      var n := |queue| - 1;
      SerialLength(queue[..n]);
      SerialAppends(queue[..n], queue[n]);
      assert queue == queue[..n] + [queue[n]];
    }
  }

  lemma NothingQueued()
    ensures Serial([]) == [] && QueueBytes([]) == 0
  {
  }

  lemma EmptySpan(bytes: seq<byte>, head: nat)
    requires head < |bytes|
    ensures Span(bytes, head, 0) == []
  {
  }

  lemma PushIgnoresActive(c: Chan, m: Msg)
    ensures Push(c.(partialActive := false), m) == Push(c, m).(partialActive := false)
  {
  }

  function Zeros(n: nat): seq<byte> { seq(n, _ => 0) }

  /** PASSTHRU_MSG, the caller's. */
  class Message {
    var protocolId: u32
    var rxStatus: u32
    var txFlags: u32
    var timestamp: u32
    var dataSize: u32
    var extraDataIndex: u32
    const data: array<byte>

    constructor ()
      ensures data.Length == MSG_MAX && fresh(data)
    {
      data := new byte[MSG_MAX](_ => 0);
      protocolId, rxStatus, txFlags, timestamp, dataSize, extraDataIndex := 0, 0, 0, 0, 0, 0;
    }

    /** memset, and the fields of a stored header. */
    method Fill(h: seq<byte>)
      requires |h| == QHDR && data.Length == MSG_MAX
      modifies this, data
      ensures protocolId == FieldAt(h, 0) && rxStatus == FieldAt(h, 4) && txFlags == FieldAt(h, 8)
      ensures timestamp == FieldAt(h, 12) && dataSize == FieldAt(h, 16) && extraDataIndex == FieldAt(h, 20)
      ensures data[..] == Zeros(MSG_MAX)
    {
      forall i | 0 <= i < data.Length { data[i] := 0; }
      protocolId, rxStatus, txFlags := FieldAt(h, 0), FieldAt(h, 4), FieldAt(h, 8);
      timestamp, dataSize, extraDataIndex := FieldAt(h, 12), FieldAt(h, 16), FieldAt(h, 20);
    }

    method Store(bytes: seq<byte>)
      requires |bytes| <= MSG_MAX == data.Length && data[..] == Zeros(MSG_MAX)
      modifies data
      ensures data[..] == bytes + Zeros(MSG_MAX - |bytes|)
    {
      forall i | 0 <= i < |bytes| { data[i] := bytes[i]; }
      assert forall i | |bytes| <= i < MSG_MAX :: data[i] == old(data[..])[i];
    }

    /** All six fields and the data are `m`'s, and the rest of the buffer is zero. */
    ghost predicate Holds(m: Msg)
      reads this, data
    {
      && protocolId == m.protocol && StatusOfWord(rxStatus) == m.rx && rxStatus == m.rx.Word()
      && txFlags == m.txFlags && timestamp == m.timestamp && dataSize == |m.data| && extraDataIndex == m.extra
      && data.Length == MSG_MAX && |m.data| <= MSG_MAX
      && data[..] == m.data + Zeros(MSG_MAX - |m.data|)
    }
  }

  /** op_channel. */
  class Channel {
    var open: bool
    var protocol: u32
    var partial: Msg
    var partialActive: bool
    var extAnnounced: bool
    var rq: array?<byte>
    var head: nat
    var tail: nat
    var used: nat
    var qcount: nat
    var dropped: nat
    const capacity: nat
    ghost var queue: seq<Msg>

    constructor (capacity: nat)
      requires capacity > 0
      ensures Valid() && Abs() == Chan(false, 0, Msg(0, PLAIN, 0, 0, 0, []), false, false, [], 0, capacity)
      ensures rq == null
    {
      open, protocol, partial := false, 0, Msg(0, PLAIN, 0, 0, 0, []);
      partialActive, extAnnounced := false, false;
      rq, head, tail, used, qcount, dropped := null, 0, 0, 0, 0, 0;
      this.capacity, queue := capacity, [];
    }

    ghost predicate Valid()
      reads this, rq
    {
      && capacity > 0 && |partial.data| <= MSG_MAX
      && qcount == |queue|
      && (forall i | 0 <= i < |queue| :: |queue[i].data| <= MSG_MAX)
      && used == QueueBytes(queue)
      && (rq == null ==> !open && queue == [] && head == tail == 0)
      && (rq != null ==>
            && rq.Length == capacity && head < capacity && used <= capacity && tail == Wrap(head + used, capacity)
            && Span(rq[..], head, used) == Serial(queue))
    }

    ghost function Abs(): Chan
      reads this
    {
      Chan(open, protocol, partial, partialActive, extAnnounced, queue, dropped, capacity)
    }

    /** ring_put. */
    method RingPut(src: seq<byte>)
      requires rq != null && rq.Length == capacity > 0 && tail < capacity && |src| <= capacity
      modifies rq, this`tail
      ensures Written(old(rq[..]), rq[..], old(tail), src)
      ensures tail == Wrap(old(tail) + |src|, capacity)
    {
      CopyIn(rq, tail, src);
      ModIsWrap(tail + |src|, capacity);
      tail := (tail + |src|) % capacity;
    }

    /** ring_get. */
    method RingGet(n: nat) returns (dst: seq<byte>)
      requires rq != null && rq.Length == capacity > 0 && head < capacity && n <= capacity
      modifies this`head
      ensures dst == Span(rq[..], old(head), n)
      ensures head == Wrap(old(head) + n, capacity)
    {
      dst := CopyOut(rq, head, n);
      ModIsWrap(head + n, capacity);
      head := (head + n) % capacity;
    }

    /** The two copies of queue_push: the record `h + data` behind what the ring holds. */
    method PutRecord(h: seq<byte>, data: seq<byte>)
      requires rq != null && rq.Length == capacity > 0 && head < capacity
      requires used + |h| + |data| <= capacity && tail == Wrap(head + used, capacity)
      modifies rq, this`tail
      ensures Span(rq[..], head, used + |h| + |data|) == old(Span(rq[..], head, used)) + (h + data)
      ensures tail == Wrap(head + used + |h| + |data|, capacity)
    {
      hide Span, Written;
      ghost var before := rq[..];
      RingPut(h);
      ghost var middle := rq[..];
      SpanGrows(before, middle, head, used, h);
      RingPut(data);
      SpanGrows(middle, rq[..], head, used + |h|, data);
    }

    /** queue_push: a message that does not fit is dropped whole. */
    method QueuePush(m: Msg)
      requires Valid() && rq != null
      modifies this, rq
      ensures Valid() && Abs() == Push(old(Abs()), m) && rq == old(rq)
    {
      hide Header, Be32, Serial, Span, QueueBytes;
      var size := if |m.data| <= MSG_MAX then |m.data| else MSG_MAX;
      var kept := m.(data := m.data[..size]);
      if used + QHDR + size > capacity {
        dropped := dropped + 1;
        return;
      }
      PutRecord(Header(kept), kept.data);
      SerialAppends(queue, kept);
      QueueBytesAppends(queue, kept);
      used := used + QHDR + size;
      qcount := qcount + 1;
      queue := queue + [kept];
    }

    /** queue_frame. */
    method PushFrame(proto: u32, r: Reply, rx: RxStatus, indication: bool, keepData: bool)
      requires Valid() && rq != null && r.Frame?
      modifies this, rq
      ensures Valid() && rq == old(rq)
      ensures Abs() == QueueFrame(old(Abs()), proto, r, rx, indication, keepData)
    {
      hide Push;
      var take := if keepData then |r.data| else 0;
      if take > MSG_MAX { take := MSG_MAX; }
      var data := r.data[..take];
      QueuePush(Msg(proto, rx, 0, r.timestamp, if indication then 0 else |data|, data));
    }

    /** absorb_frame, once the frame is known to belong to this open channel. */
    method AbsorbFrame(r: Reply)
      requires Valid() && open && r.Frame?
      modifies this, rq
      ensures Valid() && rq == old(rq) && Abs() == Absorb(old(Abs()), r)
    {
      hide Push, QueueFrame, Extend, Serial, Span, QueueBytes, HasBit, ProtocolBase;
      var base := ProtocolBase(protocol);
      var loopback := HasBit(r.status, STS_LOOPBACK);
      var wide := (base == CAN || base == ISO15765) && HasBit(r.status, STS_29BIT);
      var ext := base == ISO15765 && HasBit(r.status, STS_EXT_ADDR);
      if HasBit(r.status, STS_TX_IND) && (base == CAN || base == ISO15765) {
        PushFrame(protocol, r, RxStatus(true, false, true, ext, wide), true, true);
        return;
      }
      if base == CAN {
        PushFrame(protocol, r, RxStatus(loopback, false, false, false, wide), false, true);
        return;
      }
      if HasBit(r.status, STS_START) && !HasBit(r.status, STS_END) {
        partialActive := false;
        extAnnounced := ext;
        if loopback && base != ISO15765 {
          PushFrame(protocol, r, PLAIN.(first := true), true, false);
        } else {
          PushFrame(protocol, r, RxStatus(loopback, !loopback, loopback, ext, wide), true, !loopback);
        }
        return;
      }
      Accumulate(r);
      if HasBit(r.status, STS_END) {
        Finish();
      }
    }

    /** The message in progress is whole. */
    method Finish()
      requires Valid() && rq != null
      modifies this, rq
      ensures Valid() && rq == old(rq) && Abs() == Push(old(Abs()).(partialActive := false), old(partial))
    {
      PushIgnoresActive(Abs(), partial);
      QueuePush(partial);
      partialActive := false;
    }

    /** The tail of absorb_frame: the frame's bytes, without a repeated header and as far as there
        is room, go onto the message in progress. */
    method Accumulate(r: Reply)
      requires r.Frame? && |partial.data| <= MSG_MAX
      modifies this`partial, this`partialActive, this`extAnnounced
      ensures partial == Extend(old(Abs()), r) && partialActive
      ensures extAnnounced == old(partialActive && extAnnounced)
    {
      hide HasBit, ProtocolBase, Grown;
      ghost var c := Abs();
      var base := ProtocolBase(protocol);
      var loopback := HasBit(r.status, STS_LOOPBACK);
      var wide := (base == CAN || base == ISO15765) && HasBit(r.status, STS_29BIT);
      var ext := base == ISO15765 && HasBit(r.status, STS_EXT_ADDR);
      var skip := 0;
      if !partialActive {
        partial := Msg(protocol, PLAIN.(addr := extAnnounced), 0, 0, 0, []);
        extAnnounced := false;
        partialActive := true;
      } else if base == ISO15765 {
        skip := if partial.rx.addr || ext then 5 else 4;
        if |r.data| < skip { skip := 0; }
      }
      assert partial == Started(c) && skip == HeaderSkip(c, r);
      Grow(r.data[skip..], r.timestamp, loopback, ext, wide);
    }

    method Grow(piece: seq<byte>, timestamp: u32, loopback: bool, ext: bool, wide: bool)
      requires |partial.data| <= MSG_MAX
      modifies this`partial
      ensures partial == Grown(old(partial), piece, timestamp, loopback, ext, wide)
    {
      var take, room := |piece|, MSG_MAX - |partial.data|;
      if take > room { take := room; }
      var p, data := partial, partial.data + piece[..take];
      partial := Msg(p.protocol, RxStatus(p.rx.tx || loopback, p.rx.first, p.rx.done, p.rx.addr || ext, p.rx.wide || wide),
                     p.txFlags, timestamp, |data|, data);
    }

    /** The two copies of op_device_pop: the oldest record, off the ring. */
    method GetRecord() returns (h: seq<byte>, data: seq<byte>)
      requires Valid() && qcount > 0
      modifies this
      ensures Valid() && rq == old(rq) && Abs() == old(Abs()).(queue := old(queue)[1..])
      ensures h == Header(old(queue)[0]) && data == old(queue)[0].data
    {
      hide Header, Be32, ReadBe32, Serial, Span, QueueBytes, StatusOfWord, FieldAt;
      OldestFirst(queue, rq[..], head, used);
      HeaderFields(queue[0]);
      h := RingGet(QHDR);
      data := RingGet(FieldAt(h, 16));
      used := used - (QHDR + FieldAt(h, 16));
      qcount := qcount - 1;
      queue := queue[1..];
    }

    /** The message taking part of op_device_pop. */
    method TakeOldest(out: Message)
      requires Valid() && qcount > 0 && out.data.Length == MSG_MAX && out.data != rq
      modifies this, out, out.data
      ensures Valid() && rq == old(rq) && Abs() == old(Abs()).(queue := old(queue)[1..])
      ensures out.Holds(old(queue)[0])
    {
      hide Header, Be32, ReadBe32, Serial, Span, QueueBytes, StatusOfWord, FieldAt, Zeros;
      HeaderFields(queue[0]);
      StatusRoundTrip(queue[0].rx);
      var h, data := GetRecord();
      out.Fill(h);
      out.Store(data);
    }

    /** flush_locked. */
    method Flush()
      requires Valid()
      modifies this
      ensures Valid() && rq == old(rq)
      ensures Abs() == old(Abs()).(queue := [], partialActive := false, extAnnounced := false, dropped := 0)
    {
      hide Serial, Span, QueueBytes;
      NothingQueued();
      if rq != null { EmptySpan(rq[..], 0); }
      head, tail, used, qcount := 0, 0, 0, 0;
      partialActive, extAnnounced, dropped := false, false, 0;
      queue := [];
    }

    /** op_device_open_channel: `memory` says whether a first allocation of the ring succeeds. */
    method Open(proto: u32, memory: bool) returns (ok: bool)
      requires Valid()
      modifies this
      ensures Valid() && (rq == old(rq) || (old(rq) == null && rq != null && fresh(rq)))
      ensures ok == (old(rq) != null || memory) == (rq != null)
      ensures Abs() == Chan(ok, if ok then proto else 0, Msg(0, PLAIN, 0, 0, 0, []), false, false, [], 0, capacity)
    {
      hide Serial, Span, QueueBytes;
      NothingQueued();
      var ring := rq;
      if ring == null && memory { ring := new byte[capacity]; }
      open, protocol, partial := false, 0, Msg(0, PLAIN, 0, 0, 0, []);
      Flush();
      rq := ring;
      if rq != null {
        EmptySpan(rq[..], 0);
        open, protocol := true, proto;
      }
      return ring != null;
    }

    /** op_device_close_channel. */
    method Close()
      requires Valid()
      modifies this
      ensures Valid() && rq == old(rq)
      ensures Abs() == old(Abs()).(open := false, queue := [], partialActive := false, extAnnounced := false, dropped := 0)
    {
      open := false;
      Flush();
    }

    /** op_device_take_dropped. */
    method TakeDropped() returns (n: nat)
      requires Valid()
      modifies this`dropped
      ensures Valid() && n == old(dropped) && Abs() == old(Abs()).(dropped := 0)
    {
      n := dropped;
      dropped := 0;
    }
  }

  lemma OldestFirst(queue: seq<Msg>, bytes: seq<byte>, head: nat, used: nat)
    requires queue != [] && forall i | 0 <= i < |queue| :: |queue[i].data| <= MSG_MAX
    requires head < |bytes| && used <= |bytes| && Span(bytes, head, used) == Serial(queue)
    requires used == QueueBytes(queue)
    ensures var m := queue[0];
            && used >= QHDR + |m.data|
            && Span(bytes, head, QHDR) == Header(m)
            && Span(bytes, Wrap(head + QHDR, |bytes|), |m.data|) == m.data
            && Span(bytes, Wrap(head + QHDR + |m.data|, |bytes|), used - QHDR - |m.data|) == Serial(queue[1..])
            && QueueBytes(queue[1..]) == used - QHDR - |m.data|
  {
    hide Header, Serial, Span, QueueBytes;
    var m, more := queue[0], Serial(queue[1..]);
    var size := |m.data|;
    SerialLength(queue);
    SerialLength(queue[1..]);
    SerialSplits(queue);
    SpanParts(bytes, head, Header(m), m.data, more);
  }

  lemma SerialSplits(queue: seq<Msg>)
    requires queue != [] && forall i | 0 <= i < |queue| :: |queue[i].data| <= MSG_MAX
    ensures Serial(queue) == Header(queue[0]) + (queue[0].data + Serial(queue[1..]))
  {
    hide Header;
  }

  /** A span that holds three parts holds each of them where it should be. */
  lemma SpanParts(bytes: seq<byte>, head: nat, a: seq<byte>, b: seq<byte>, c: seq<byte>)
    requires head < |bytes| && |a| + |b| + |c| <= |bytes| && Span(bytes, head, |a| + |b| + |c|) == a + (b + c)
    ensures Span(bytes, head, |a|) == a
    ensures Span(bytes, Wrap(head + |a|, |bytes|), |b|) == b
    ensures Span(bytes, Wrap(head + |a| + |b|, |bytes|), |c|) == c
  {
    hide Span;
    var at := Wrap(head + |a|, |bytes|);
    SpanSplits(bytes, head, |a|, |a| + |b| + |c|);
    SameSplit(Span(bytes, head, |a|), Span(bytes, at, |b| + |c|), a, b + c);
    SpanSplits(bytes, at, |b|, |b| + |c|);
    SameSplit(Span(bytes, at, |b|), Span(bytes, Wrap(at + |b|, |bytes|), |c|), b, c);
  }

  lemma SameSplit(a: seq<byte>, b: seq<byte>, c: seq<byte>, d: seq<byte>)
    requires a + b == c + d && |a| == |c|
    ensures a == c && b == d
  {
    assert a == (a + b)[..|a|] && c == (c + d)[..|c|];
    assert b == (a + b)[|a|..] && d == (c + d)[|c|..];
  }
}
