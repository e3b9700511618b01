/** What a channel does with the frames of its wire: reassembly and the receive queue, on values.
    ring.dfy and device.dfy prove the in-place code equal to these functions. */
module Channels {
  import opened Bytes
  import opened Proto

  const ISO9141: u32 := 3
  const ISO14230: u32 := 4
  const CAN: u32 := 5
  const ISO15765: u32 := 6
  const CAN_CH1: u32 := 0x9000
  const ISO9141_CH1: u32 := 0x9240
  const ISO9141_CH2: u32 := 0x9241
  const ISO9141_CH3: u32 := 0x9242
  const ISO14230_CH1: u32 := 0x9320
  const ISO14230_CH2: u32 := 0x9321
  const ISO15765_CH1: u32 := 0x9400

  const CHANNELS: nat := 10
  /** Bytes of the header stored in front of each queued message. */
  const QHDR: nat := 24

  /** op_protocol_channel, -1 when the firmware has none. */
  function ProtocolChannel(protocol: u32): (ch: int)
    ensures -1 <= ch < CHANNELS
  {
    if protocol == ISO9141 || protocol == ISO9141_CH1 then 3
    else if protocol == ISO14230 || protocol == ISO14230_CH1 then 4
    else if protocol == CAN || protocol == CAN_CH1 then 5
    else if protocol == ISO15765 || protocol == ISO15765_CH1 then 6
    else if protocol == ISO9141_CH2 then 7
    else if protocol == ISO14230_CH2 then 8
    else if protocol == ISO9141_CH3 then 9
    else -1
  }

  /** op_protocol_base. */
  function ProtocolBase(protocol: u32): u32
  {
    if protocol in {ISO9141_CH1, ISO9141_CH2, ISO9141_CH3} then ISO9141
    else if protocol in {ISO14230_CH1, ISO14230_CH2} then ISO14230
    else if protocol == CAN_CH1 then CAN
    else if protocol == ISO15765_CH1 then ISO15765
    else protocol
  }

  predicate CanLike(protocol: u32)
  {
    ProtocolBase(protocol) == CAN || ProtocolBase(protocol) == ISO15765
  }

  /** The RxStatus bits this driver ever sets. */
  datatype RxStatus = RxStatus(tx: bool, first: bool, done: bool, addr: bool, wide: bool)
  {
    /** TX_MSG_TYPE 1, START_OF_MESSAGE 2, TX_DONE 8, ISO15765_ADDR_TYPE 0x80, CAN_29BIT_ID 0x100. */
    function Word(): u32 {
      (if tx then 1 else 0) + (if first then 2 else 0) + (if done then 8 else 0)
      + (if addr then 0x80 else 0) + (if wide then 0x100 else 0)
    }

    /** Indications are the entries of section 8.6 of SAE J2534-1. */
    predicate IsIndication() { first || done }
  }

  function StatusOfWord(w: u32): RxStatus
  {
    RxStatus(HasBit(w, 1), HasBit(w, 2), HasBit(w, 8), HasBit(w, 0x80), HasBit(w, 0x100))
  }

  /** The word as section 8.6 of SAE J2534-1 has it, and no other bit. */
  lemma WordBits(rx: RxStatus)
    ensures var w := rx.Word();
            && (HasBit(w, 0x01) <==> rx.tx) && (HasBit(w, 0x02) <==> rx.first) && (HasBit(w, 0x08) <==> rx.done)
            && (HasBit(w, 0x80) <==> rx.addr) && (HasBit(w, 0x100) <==> rx.wide)
            && !HasBit(w, 0x04) && !HasBit(w, 0x10) && !HasBit(w, 0x20) && !HasBit(w, 0x40) && w < 0x200
  {
  }

  const PLAIN := RxStatus(false, false, false, false, false)

  /** A PASSTHRU_MSG; DataSize is |data|. */
  datatype Msg = Msg(protocol: u32, rx: RxStatus, txFlags: u32, timestamp: u32, extra: u32, data: seq<byte>)

  /** A channel. `capacity` is the size of its queue in bytes, OP_RXQ_BYTES in the driver. */
  datatype Chan = Chan(open: bool, protocol: u32, partial: Msg, partialActive: bool, extAnnounced: bool,
                       queue: seq<Msg>, dropped: nat, capacity: nat)
  {
    predicate Idle() { !partialActive && !extAnnounced }
    /** The channel with the message in progress given up. */
    function Abandoned(): Chan { this.(partialActive := false, extAnnounced := false) }
    ghost predicate Sane() { |partial.data| <= MSG_MAX }
  }

  function QueueBytes(queue: seq<Msg>): nat
  {
    if queue == [] then 0 else QueueBytes(queue[..|queue| - 1]) + QHDR + |queue[|queue| - 1].data|
  }

  lemma QueueBytesAppends(queue: seq<Msg>, m: Msg)
    ensures QueueBytes(queue + [m]) == QueueBytes(queue) + QHDR + |m.data|
  {
    assert (queue + [m])[..|queue|] == queue;
  }

  function Clip(data: seq<byte>, room: int): seq<byte>
  {
    data[..Min(|data|, if room < 0 then 0 else room)]
  }

  /** Whether a message of `size` data bytes fits behind the queue. */
  predicate Fits(c: Chan, size: nat)
  {
    QueueBytes(c.queue) + QHDR + size <= c.capacity
  }

  /** queue_push: an arriving message that does not fit is dropped and counted. */
  function Push(c: Chan, m: Msg): Chan
  {
    var kept := m.(data := Clip(m.data, MSG_MAX));
    if Fits(c, |kept.data|) then c.(queue := c.queue + [kept]) else c.(dropped := c.dropped + 1)
  }

  /** queue_frame: one frame as its own message. */
  function FrameMsg(protocol: u32, r: Reply, rx: RxStatus, indication: bool, keepData: bool): Msg
    requires r.Frame?
  {
    var data := if keepData then Clip(r.data, MSG_MAX) else [];
    Msg(protocol, rx, 0, r.timestamp, if indication then 0 else |data|, data)
  }

  function QueueFrame(c: Chan, protocol: u32, r: Reply, rx: RxStatus, indication: bool, keepData: bool): Chan
    requires r.Frame?
  {
    Push(c, FrameMsg(protocol, r, rx, indication, keepData))
  }

  predicate IsExt(c: Chan, status: byte)
  {
    ProtocolBase(c.protocol) == ISO15765 && HasBit(status, STS_EXT_ADDR)
  }

  predicate IsWide(c: Chan, status: byte) { CanLike(c.protocol) && HasBit(status, STS_29BIT) }

  /** How many leading bytes of a continuation frame repeat the header. */
  function HeaderSkip(c: Chan, r: Reply): (n: nat)
    requires r.Frame?
    ensures n <= |r.data|
  {
    if c.partialActive && ProtocolBase(c.protocol) == ISO15765 then
      var skip := if c.partial.rx.addr || IsExt(c, r.status) then 5 else 4;
      if |r.data| < skip then 0 else skip
    else 0
  }

  /** The message in progress, begun if there is none. */
  function Started(c: Chan): Msg
  {
    if c.partialActive then c.partial else Msg(c.protocol, PLAIN.(addr := c.extAnnounced), 0, 0, 0, [])
  }

  /** A message in progress with a frame's marks and bytes added, as far as there is room. */
  function Grown(p: Msg, piece: seq<byte>, timestamp: u32, loopback: bool, ext: bool, wide: bool): (p': Msg)
    requires |p.data| <= MSG_MAX
    ensures |p'.data| <= MSG_MAX
  {
    var data := p.data + Clip(piece, MSG_MAX - |p.data|);
    Msg(p.protocol, RxStatus(p.rx.tx || loopback, p.rx.first, p.rx.done, p.rx.addr || ext, p.rx.wide || wide),
        p.txFlags, timestamp, |data|, data)
  }

  /** The message in progress with this frame added. */
  function Extend(c: Chan, r: Reply): (p: Msg)
    requires r.Frame? && c.Sane()
    ensures |p.data| <= MSG_MAX
  {
    Grown(Started(c), r.data[HeaderSkip(c, r)..], r.timestamp,
          HasBit(r.status, STS_LOOPBACK), IsExt(c, r.status), IsWide(c, r.status))
  }

  /** absorb_frame, for a frame of an open channel. */
  function Absorb(c: Chan, r: Reply): (c': Chan)
    requires r.Frame? && c.Sane()
    ensures c'.Sane() && c'.open == c.open && c'.protocol == c.protocol && c'.capacity == c.capacity
  {
    var base := ProtocolBase(c.protocol);
    var loopback := HasBit(r.status, STS_LOOPBACK);
    var wide, ext := IsWide(c, r.status), IsExt(c, r.status);
    if HasBit(r.status, STS_TX_IND) && CanLike(c.protocol) then
      QueueFrame(c, c.protocol, r, RxStatus(true, false, true, ext, wide), true, true)
    else if base == CAN then
      QueueFrame(c, c.protocol, r, RxStatus(loopback, false, false, false, wide), false, true)
    else if HasBit(r.status, STS_START) && !HasBit(r.status, STS_END) then
      var fresh' := c.(partialActive := false, extAnnounced := ext);
      if loopback && base != ISO15765 then
        QueueFrame(fresh', c.protocol, r, PLAIN.(first := true), true, false)
      else
        var rx := if loopback then RxStatus(true, false, true, ext, wide) else RxStatus(false, true, false, ext, wide);
        QueueFrame(fresh', c.protocol, r, rx, true, !loopback)
    else
      var p := Extend(c, r);
      var c1 := c.(partial := p, partialActive := !HasBit(r.status, STS_END),
                   extAnnounced := c.partialActive && c.extAnnounced);
      if HasBit(r.status, STS_END) then Push(c1, p) else c1
  }

  /** A loopback frame of closed channel 5, delivered to open channel 6 as raw CAN. */
  function AbsorbEcho(c: Chan, r: Reply): Chan
    requires r.Frame?
  {
    QueueFrame(c, CAN, r, RxStatus(true, false, false, false, HasBit(r.status, STS_29BIT)), false, true)
  }

  function EchoMsg(r: Reply): Msg
    requires r.Frame?
  {
    FrameMsg(CAN, r, RxStatus(true, false, false, false, HasBit(r.status, STS_29BIT)), false, true)
  }

  /** Frames in order of arrival. */
  function AbsorbAll(c: Chan, frames: seq<Reply>): (c': Chan)
    requires c.Sane() && forall i | 0 <= i < |frames| :: frames[i].Frame?
    ensures c'.Sane() && c'.open == c.open && c'.protocol == c.protocol && c'.capacity == c.capacity
    decreases |frames|
  {
    if frames == [] then c else AbsorbAll(Absorb(c, frames[0]), frames[1..])
  }

  // ---- the whole device ----

  ghost predicate SaneAll(chs: seq<Chan>)
  {
    |chs| == CHANNELS && forall i | 0 <= i < |chs| :: chs[i].Sane()
  }

  /** Which channel a frame reaches, and whether as an echo. */
  datatype Route = Nowhere | Own(channel: nat) | Echo

  function RouteOf(chs: seq<Chan>, r: Reply): (route: Route)
    requires |chs| == CHANNELS && r.Frame?
    ensures route.Own? ==> route.channel < CHANNELS
  {
    if r.channel >= CHANNELS then Nowhere
    else if chs[r.channel].open then Own(r.channel)
    else if r.channel == ProtocolChannel(CAN) && HasBit(r.status, STS_LOOPBACK) && chs[ProtocolChannel(ISO15765)].open
    then Echo
    else Nowhere
  }

  /** absorb_frame. */
  function Dispatch(chs: seq<Chan>, r: Reply): (chs': seq<Chan>)
    requires SaneAll(chs) && r.Frame?
    ensures SaneAll(chs') && forall i | 0 <= i < CHANNELS :: chs'[i].open == chs[i].open
  {
    match RouteOf(chs, r)
    case Nowhere => chs
    case Own(i) => chs[i := Absorb(chs[i], r)]
    case Echo => chs[6 := AbsorbEcho(chs[6], r)]
  }

  function DispatchAll(chs: seq<Chan>, frames: seq<Reply>): (chs': seq<Chan>)
    requires SaneAll(chs) && forall i | 0 <= i < |frames| :: frames[i].Frame?
    ensures SaneAll(chs') && forall i | 0 <= i < CHANNELS :: chs'[i].open == chs[i].open
    decreases |frames|
  {
    if frames == [] then chs else DispatchAll(Dispatch(chs, frames[0]), frames[1..])
  }

  // ---- non-interference ----

  /** Whether a frame concerns channel `j`: its own, or an echo delivered to channel 6. */
  predicate Concerns(chs: seq<Chan>, j: nat, r: Reply)
    requires |chs| == CHANNELS && r.Frame?
  {
    RouteOf(chs, r) == Own(j) || (RouteOf(chs, r) == Echo && j == 6)
  }

  function OwnFrames(chs: seq<Chan>, j: nat, frames: seq<Reply>): (own: seq<Reply>)
    requires |chs| == CHANNELS && forall i | 0 <= i < |frames| :: frames[i].Frame?
    ensures forall i | 0 <= i < |own| :: own[i].Frame?
  {
    if frames == [] then []
    else (if Concerns(chs, j, frames[0]) then [frames[0]] else []) + OwnFrames(chs, j, frames[1..])
  }

  /** A channel's state, queue included, depends on the frames that concern it and on nothing else:
      all other traffic may be removed, or be anything, and nothing changes for it. */
  lemma {:induction false} NonInterference(chs: seq<Chan>, other: seq<Chan>, j: nat, frames: seq<Reply>)
    requires SaneAll(chs) && SaneAll(other) && j < CHANNELS && chs[j] == other[j]
    requires forall i | 0 <= i < CHANNELS :: chs[i].open == other[i].open
    requires forall i | 0 <= i < |frames| :: frames[i].Frame?
    ensures DispatchAll(chs, frames)[j] == DispatchAll(other, OwnFrames(chs, j, frames))[j]
    decreases |frames|
  {
    hide Absorb, AbsorbEcho;
    if frames != [] {
      var r, more := frames[0], frames[1..];
      var chs' := Dispatch(chs, r);
      SameOwnFrames(chs, chs', j, more);
      if Concerns(chs, j, r) {
        var other' := Dispatch(other, r);
        NonInterference(chs', other', j, more);
        assert OwnFrames(chs, j, frames) == [r] + OwnFrames(chs, j, more);
        assert ([r] + OwnFrames(chs, j, more))[1..] == OwnFrames(chs, j, more);
      } else {
        NonInterference(chs', other, j, more);
        assert OwnFrames(chs, j, frames) == OwnFrames(chs, j, more);
      }
    }
  }

  lemma {:induction false} SameOwnFrames(chs: seq<Chan>, other: seq<Chan>, j: nat, frames: seq<Reply>)
    requires |chs| == |other| == CHANNELS && forall i | 0 <= i < CHANNELS :: chs[i].open == other[i].open
    requires forall i | 0 <= i < |frames| :: frames[i].Frame?
    ensures OwnFrames(chs, j, frames) == OwnFrames(other, j, frames)
  {
    if frames != [] { SameOwnFrames(chs, other, j, frames[1..]); }
  }

  /** The frames that concern an open channel are those that carry its number, and for channel 6 also
      the loopback frames of channel 5 while that is closed; none concerns a closed channel. */
  lemma OwnMeansOwnNumber(chs: seq<Chan>, j: nat, r: Reply)
    requires |chs| == CHANNELS && j < CHANNELS && r.Frame?
    ensures Concerns(chs, j, r)
       <==> chs[j].open && (r.channel == j || (j == 6 && r.channel == 5 && !chs[5].open && HasBit(r.status, STS_LOOPBACK)))
  {
  }

  // ---- what arrives ----

  /** The messages a frame makes for its channel, whether or not there is room for them. */
  function Made(c: Chan, r: Reply): seq<Msg>
    requires r.Frame? && c.Sane()
  {
    var base, loopback := ProtocolBase(c.protocol), HasBit(r.status, STS_LOOPBACK);
    var wide, ext := IsWide(c, r.status), IsExt(c, r.status);
    if HasBit(r.status, STS_TX_IND) && CanLike(c.protocol) then
      [FrameMsg(c.protocol, r, RxStatus(true, false, true, ext, wide), true, true)]
    else if base == CAN then [FrameMsg(c.protocol, r, RxStatus(loopback, false, false, false, wide), false, true)]
    else if HasBit(r.status, STS_START) && !HasBit(r.status, STS_END) then
      (if loopback && base != ISO15765 then [FrameMsg(c.protocol, r, PLAIN.(first := true), true, false)]
       else [FrameMsg(c.protocol, r, RxStatus(loopback, !loopback, loopback, ext, wide), true, !loopback)])
    else if HasBit(r.status, STS_END) then [Extend(c, r)]
    else []
  }

  /** Messages arriving one after the other. */
  function PushAll(c: Chan, arrivals: seq<Msg>): (c': Chan)
    ensures c.queue <= c'.queue && c'.open == c.open && c'.capacity == c.capacity
  {
    if arrivals == [] then c else Push(PushAll(c, arrivals[..|arrivals| - 1]), arrivals[|arrivals| - 1])
  }

  /** As far as room is concerned two channels are the same. */
  predicate SameRoom(c: Chan, d: Chan)
  {
    c.queue == d.queue && c.dropped == d.dropped && c.capacity == d.capacity && c.open == d.open
  }

  lemma {:induction false} PushAllSame(c: Chan, d: Chan, arrivals: seq<Msg>)
    requires SameRoom(c, d)
    ensures SameRoom(PushAll(c, arrivals), PushAll(d, arrivals))
  {
    if arrivals != [] { PushAllSame(c, d, arrivals[..|arrivals| - 1]); }
  }

  lemma {:induction false} PushAllAppends(c: Chan, a: seq<Msg>, b: seq<Msg>)
    ensures PushAll(c, a + b) == PushAll(PushAll(c, a), b)
  {
    hide Push;
    if b == [] {
      assert a + b == a;
    } else {
      PushAllAppends(c, a, b[..|b| - 1]);
      assert (a + b)[..|a + b| - 1] == a + b[..|b| - 1];
    }
  }

  lemma PushOne(c: Chan, m: Msg)
    ensures PushAll(c, [m]) == Push(c, m)
  {
    assert [m][..0] == [];
  }

  /** Absorbing a frame is, for the queue, the arrival of the messages it makes. */
  lemma AbsorbMakes(c: Chan, r: Reply)
    requires r.Frame? && c.Sane()
    ensures SameRoom(Absorb(c, r), PushAll(c, Made(c, r)))
    ensures SameRoom(AbsorbEcho(c, r), PushAll(c, [EchoMsg(r)]))
  {
    hide Push, FrameMsg, Extend, HasBit;
    PushOne(c, EchoMsg(r));
    var made := Made(c, r);
    if made != [] {
      PushOne(c, made[0]);
      PushAllSame(c, c.(partialActive := false, extAnnounced := IsExt(c, r.status)), made);
      PushOne(c.(partialActive := false, extAnnounced := IsExt(c, r.status)), made[0]);
      var c1 := c.(partial := Extend(c, r), partialActive := false, extAnnounced := c.partialActive && c.extAnnounced);
      PushAllSame(c, c1, made);
      PushOne(c1, made[0]);
    }
  }

  // ---- what is queued ----

  /** Section 8.6 of SAE J2534-1: ExtraDataIndex is 0 in an indication, DataSize otherwise. */
  predicate WellMarked(m: Msg)
  {
    |m.data| <= MSG_MAX && m.extra == if m.rx.IsIndication() then 0 else |m.data|
  }

  ghost predicate Marked(c: Chan)
  {
    && (forall i | 0 <= i < |c.queue| :: WellMarked(c.queue[i]))
    && (c.partialActive ==> WellMarked(c.partial) && !c.partial.rx.IsIndication())
    && QueueBytes(c.queue) <= c.capacity
  }

  lemma PushKeepsMarks(c: Chan, m: Msg)
    requires Marked(c) && WellMarked(m)
    ensures Marked(Push(c, m))
  {
    assert Clip(m.data, MSG_MAX) == m.data;
    assert (c.queue + [m])[..|c.queue|] == c.queue;
  }

  lemma FrameKeepsMarks(c: Chan, protocol: u32, r: Reply, rx: RxStatus, indication: bool, keepData: bool)
    requires r.Frame? && Marked(c) && indication == rx.IsIndication()
    ensures Marked(QueueFrame(c, protocol, r, rx, indication, keepData))
  {
    hide Push, Marked;
    var data := if keepData then Clip(r.data, MSG_MAX) else [];
    PushKeepsMarks(c, Msg(protocol, rx, 0, r.timestamp, if indication then 0 else |data|, data));
  }

  /** Every frame keeps the marks and the bounds: partial messages and queued ones never exceed
      4128 bytes, and the queue never exceeds its capacity. */
  lemma AbsorbKeepsMarks(c: Chan, r: Reply)
    requires r.Frame? && c.Sane() && Marked(c)
    ensures Marked(Absorb(c, r)) && Marked(AbsorbEcho(c, r))
  {
    hide QueueFrame, Push;
    FrameKeepsMarks(c, CAN, r, RxStatus(true, false, false, false, HasBit(r.status, STS_29BIT)), false, true);
    var loopback := HasBit(r.status, STS_LOOPBACK);
    var wide, ext := IsWide(c, r.status), IsExt(c, r.status);
    var c0 := c.(partialActive := false, extAnnounced := ext);
    FrameKeepsMarks(c, c.protocol, r, RxStatus(true, false, true, ext, wide), true, true);
    FrameKeepsMarks(c, c.protocol, r, RxStatus(loopback, false, false, false, wide), false, true);
    FrameKeepsMarks(c0, c.protocol, r, PLAIN.(first := true), true, false);
    FrameKeepsMarks(c0, c.protocol, r, RxStatus(true, false, true, ext, wide), true, false);
    FrameKeepsMarks(c0, c.protocol, r, RxStatus(false, true, false, ext, wide), true, true);
    var p := Extend(c, r);
    PushKeepsMarks(c.(partial := p, partialActive := false, extAnnounced := c.partialActive && c.extAnnounced), p);
  }

  lemma {:induction false} DispatchAllKeepsMarks(chs: seq<Chan>, frames: seq<Reply>)
    requires SaneAll(chs) && forall i | 0 <= i < |frames| :: frames[i].Frame?
    requires forall i | 0 <= i < CHANNELS :: Marked(chs[i])
    ensures forall i | 0 <= i < CHANNELS :: Marked(DispatchAll(chs, frames)[i])
    decreases |frames|
  {
    hide Absorb, AbsorbEcho, Marked;
    if frames != [] {
      var r := frames[0];
      match RouteOf(chs, r) {
        case Nowhere =>
        case Own(i) => AbsorbKeepsMarks(chs[i], r);
        case Echo => AbsorbKeepsMarks(chs[6], r);
      }
      DispatchAllKeepsMarks(Dispatch(chs, r), frames[1..]);
    }
  }
}
