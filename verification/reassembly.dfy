/** Chunked messages: what the cable sends for one message, and the proof that absorb_frame and the
    parser together undo it. */
module Reassembly {
  import opened Bytes
  import opened Proto
  import opened Channels

  /** One data frame of a message: its status, timestamp and the piece of the body it carries. */
  datatype Chunk = Chunk(status: byte, timestamp: u32, body: seq<byte>)

  function Body(chunks: seq<Chunk>): seq<byte>
  {
    if chunks == [] then [] else chunks[0].body + Body(chunks[1..])
  }

  /** The frames of `chunks` on channel `ch`, each repeating the header `h`. */
  function Frames(ch: u32, h: seq<byte>, chunks: seq<Chunk>): (f: seq<Reply>)
    ensures |f| == |chunks| && forall i | 0 <= i < |f| :: f[i].Frame?
  {
    seq(|chunks|, i requires 0 <= i < |chunks| =>
      Frame(ch, chunks[i].status, chunks[i].timestamp, h + chunks[i].body))
  }

  predicate Marks(chunks: seq<Chunk>, bit: nat)
    requires bit > 0
  {
    exists i :: 0 <= i < |chunks| && HasBit(chunks[i].status, bit)
  }

  /** The last chunk and only it carries END; none is an announcement or a transmit indication. */
  predicate Chunked(chunks: seq<Chunk>)
  {
    && chunks != []
    && forall i | 0 <= i < |chunks| ::
         && (HasBit(chunks[i].status, STS_END) <==> i == |chunks| - 1)
         && (HasBit(chunks[i].status, STS_START) ==> i == |chunks| - 1)
         && !HasBit(chunks[i].status, STS_TX_IND)
  }

  /** Extended addressing marked before the message, or on one of its chunks up to the k-th. */
  predicate MarkedBy(marked: bool, chunks: seq<Chunk>, k: nat)
    requires k < |chunks|
  {
    marked || Marks(chunks[..k + 1], STS_EXT_ADDR)
  }

  /** By the time a continuation chunk arrives, extended addressing has been marked (on the START,
      an earlier chunk or this one) exactly when the header has the fifth byte. */
  predicate HeaderKnown(marked: bool, chunks: seq<Chunk>, header: nat)
  {
    forall k | 1 <= k < |chunks| :: header == if MarkedBy(marked, chunks, k) then 5 else 4
  }

  /** The message the chunks add up to, on a channel whose message in progress is `p`. */
  function Whole(p: Msg, chunks: seq<Chunk>): Msg
    requires chunks != [] && |p.data| + |Body(chunks)| < 0x1_0000_0000
  {
    var data := p.data + Body(chunks);
    var rx := RxStatus(p.rx.tx || Marks(chunks, STS_LOOPBACK), p.rx.first, p.rx.done,
                       p.rx.addr || Marks(chunks, STS_EXT_ADDR), p.rx.wide || Marks(chunks, STS_29BIT));
    Msg(p.protocol, rx, p.txFlags, chunks[|chunks| - 1].timestamp, |data|, data)
  }

  function Delivered(c: Chan, m: Msg): Chan
  {
    Push(c.(partial := m, partialActive := false), m)
  }

  lemma MarksCons(chunks: seq<Chunk>, bit: nat)
    requires bit > 0 && chunks != []
    ensures Marks(chunks, bit) <==> HasBit(chunks[0].status, bit) || Marks(chunks[1..], bit)
  {
    if Marks(chunks, bit) && !HasBit(chunks[0].status, bit) {
      var i :| 0 <= i < |chunks| && HasBit(chunks[i].status, bit);
      assert HasBit(chunks[1..][i - 1].status, bit);
    }
    if Marks(chunks[1..], bit) {
      var i :| 0 <= i < |chunks[1..]| && HasBit(chunks[1..][i].status, bit);
      assert HasBit(chunks[i + 1].status, bit);
    }
  }

  lemma FramesCons(ch: u32, h: seq<byte>, chunks: seq<Chunk>)
    requires chunks != []
    ensures Frames(ch, h, chunks)[1..] == Frames(ch, h, chunks[1..])
  {
  }

  lemma MarkedByRest(marked: bool, chunks: seq<Chunk>, k: nat)
    requires k + 1 < |chunks|
    ensures MarkedBy(marked || HasBit(chunks[0].status, STS_EXT_ADDR), chunks[1..], k)
        <==> MarkedBy(marked, chunks, k + 1)
  {
    MarksCons(chunks[..k + 2], STS_EXT_ADDR);
    assert chunks[..k + 2][1..] == chunks[1..][..k + 1];
  }

  lemma HeaderKnownRest(marked: bool, chunks: seq<Chunk>, header: nat)
    requires |chunks| > 1 && HeaderKnown(marked, chunks, header)
    ensures var m := marked || HasBit(chunks[0].status, STS_EXT_ADDR);
            && header == (if m || HasBit(chunks[1].status, STS_EXT_ADDR) then 5 else 4)
            && HeaderKnown(m, chunks[1..], header)
  {
    hide HasBit, MarkedBy;
    var m := marked || HasBit(chunks[0].status, STS_EXT_ADDR);
    forall k | 0 <= k < |chunks[1..]| ensures header == if MarkedBy(m, chunks[1..], k) then 5 else 4 {
      MarkedByRest(marked, chunks, k);
    }
    MarkedByFirst(m, chunks[1..]);
  }

  lemma MarkedByFirst(marked: bool, chunks: seq<Chunk>)
    requires chunks != []
    ensures MarkedBy(marked, chunks, 0) <==> marked || HasBit(chunks[0].status, STS_EXT_ADDR)
  {
    MarksCons(chunks[..1], STS_EXT_ADDR);
    assert !Marks(chunks[..1][1..], STS_EXT_ADDR);
  }

  /** The message in progress after one continuation chunk. */
  function Next(p: Msg, k: Chunk): Msg
    requires |p.data| + |k.body| < 0x1_0000_0000
  {
    Msg(p.protocol,
        RxStatus(p.rx.tx || HasBit(k.status, STS_LOOPBACK), p.rx.first, p.rx.done,
                 p.rx.addr || HasBit(k.status, STS_EXT_ADDR), p.rx.wide || HasBit(k.status, STS_29BIT)),
        p.txFlags, k.timestamp, |p.data + k.body|, p.data + k.body)
  }

  lemma ContinueStep(c: Chan, ch: u32, h: seq<byte>, k: Chunk)
    requires c.Sane() && ProtocolBase(c.protocol) == ISO15765 && c.partialActive
    requires !HasBit(k.status, STS_TX_IND) && (HasBit(k.status, STS_START) ==> HasBit(k.status, STS_END))
    requires |h| == if c.partial.rx.addr || HasBit(k.status, STS_EXT_ADDR) then 5 else 4
    requires |c.partial.data| + |k.body| <= MSG_MAX
    ensures Absorb(c, Frame(ch, k.status, k.timestamp, h + k.body))
         == if HasBit(k.status, STS_END) then Delivered(c, Next(c.partial, k)) else c.(partial := Next(c.partial, k))
  {
    hide HasBit, Push;
    var r := Frame(ch, k.status, k.timestamp, h + k.body);
    assert r.data[|h|..] == k.body;
    assert HeaderSkip(c, r) == |h|;
    assert Clip(k.body, MSG_MAX - |c.partial.data|) == k.body;
    assert Extend(c, r) == Next(c.partial, k);
  }

  /** A continuation frame too short for the header it should repeat is appended as it is. */
  lemma ShortContinuation(c: Chan, ch: u32, k: Chunk)
    requires c.Sane() && ProtocolBase(c.protocol) == ISO15765 && c.partialActive
    requires !HasBit(k.status, STS_TX_IND) && (HasBit(k.status, STS_START) ==> HasBit(k.status, STS_END))
    requires |k.body| < if c.partial.rx.addr || HasBit(k.status, STS_EXT_ADDR) then 5 else 4
    requires |c.partial.data| + |k.body| <= MSG_MAX
    ensures Absorb(c, Frame(ch, k.status, k.timestamp, k.body))
         == if HasBit(k.status, STS_END) then Delivered(c, Next(c.partial, k)) else c.(partial := Next(c.partial, k))
  {
    hide HasBit, Push;
    var r := Frame(ch, k.status, k.timestamp, k.body);
    assert r.data[0..] == k.body;
    assert Clip(k.body, MSG_MAX - |c.partial.data|) == k.body;
    assert Extend(c, r) == Next(c.partial, k);
  }

  lemma WholeCons(p: Msg, chunks: seq<Chunk>)
    requires chunks != [] && |p.data| + |Body(chunks)| < 0x1_0000_0000
    ensures |Body(chunks)| == |chunks[0].body| + |Body(chunks[1..])|
    ensures Whole(p, chunks) == if |chunks| == 1 then Next(p, chunks[0]) else Whole(Next(p, chunks[0]), chunks[1..])
  {
    hide HasBit, Marks, Body;
    var k, more := chunks[0], chunks[1..];
    BodyCons(chunks);
    MarksCons(chunks, STS_LOOPBACK);
    MarksCons(chunks, STS_EXT_ADDR);
    MarksCons(chunks, STS_29BIT);
    assert p.data + Body(chunks) == p.data + k.body + Body(more);
    if |chunks| == 1 {
      assert more == [];
      NoMarks(STS_LOOPBACK);
      NoMarks(STS_EXT_ADDR);
      NoMarks(STS_29BIT);
      assert p.data + Body(chunks) == p.data + k.body;
    } else {
      assert more[|more| - 1] == chunks[|chunks| - 1];
    }
  }

  lemma BodyCons(chunks: seq<Chunk>)
    requires chunks != []
    ensures Body(chunks) == chunks[0].body + Body(chunks[1..]) && Body([]) == []
  {
  }

  lemma NoMarks(bit: nat)
    requires bit > 0
    ensures !Marks([], bit)
  {
  }

  /** Continuation chunks, each stripped of its header, complete the message in progress. */
  lemma {:induction false} Continues(c: Chan, ch: u32, h: seq<byte>, chunks: seq<Chunk>)
    requires c.Sane() && ProtocolBase(c.protocol) == ISO15765 && c.partialActive
    requires Chunked(chunks)
    requires |h| == if c.partial.rx.addr || HasBit(chunks[0].status, STS_EXT_ADDR) then 5 else 4
    requires HeaderKnown(c.partial.rx.addr, chunks, |h|)
    requires |c.partial.data| + |Body(chunks)| <= MSG_MAX
    ensures AbsorbAll(c, Frames(ch, h, chunks)) == Delivered(c, Whole(c.partial, chunks))
    decreases |chunks|
  {
    hide HasBit, Push, Absorb, Whole, HeaderKnown;
    var k, more := chunks[0], chunks[1..];
    var frames := Frames(ch, h, chunks);
    WholeCons(c.partial, chunks);
    ContinueStep(c, ch, h, k);
    FramesCons(ch, h, chunks);
    if |chunks| == 1 {
      assert AbsorbAll(Absorb(c, frames[0]), []) == Absorb(c, frames[0]);
    } else {
      HeaderKnownRest(c.partial.rx.addr, chunks, |h|);
      assert Chunked(more);
      Continues(c.(partial := Next(c.partial, k)), ch, h, more);
    }
  }

  // ---- the theorem ----

  /** A START without END: the announcement of a segmented message. */
  predicate IsAnnouncement(r: Reply)
  {
    r.Frame? && HasBit(r.status, STS_START) && !HasBit(r.status, STS_END) && !HasBit(r.status, STS_TX_IND)
  }

  /** The first-frame indication of a received message, or the TxDone of an echoed one. */
  function Indication(c: Chan, r: Reply): Msg
    requires r.Frame?
  {
    var loopback := HasBit(r.status, STS_LOOPBACK);
    Msg(c.protocol,
        RxStatus(loopback, !loopback, loopback, HasBit(r.status, STS_EXT_ADDR), HasBit(r.status, STS_29BIT)),
        0, r.timestamp, 0, if loopback then [] else r.data)
  }

  /** The message with its header once, nothing accumulated yet. */
  function Blank(c: Chan, marked: bool, h: seq<byte>): Msg
    requires |h| <= 5
  {
    Msg(c.protocol, PLAIN.(addr := marked), 0, 0, |h|, h)
  }

  function AfterFirst(idle: Chan, k: Chunk, p: Msg): Chan
  {
    if HasBit(k.status, STS_END) then Delivered(idle, p) else idle.(partial := p, partialActive := true)
  }

  lemma FirstChunk(c: Chan, ch: u32, h: seq<byte>, k: Chunk)
    requires c.Sane() && ProtocolBase(c.protocol) == ISO15765 && !c.partialActive
    requires !HasBit(k.status, STS_TX_IND) && (HasBit(k.status, STS_START) ==> HasBit(k.status, STS_END))
    requires |h| <= 5 && |h| + |k.body| <= MSG_MAX
    ensures Absorb(c, Frame(ch, k.status, k.timestamp, h + k.body))
         == AfterFirst(c.(extAnnounced := false), k, Next(Blank(c, c.extAnnounced, h), k))
  {
    hide HasBit, Push;
    var r := Frame(ch, k.status, k.timestamp, h + k.body);
    assert r.data[0..] == h + k.body;
    assert Extend(c, r) == Next(Blank(c, c.extAnnounced, h), k);
  }

  /** Chunks after an announcement, or with none. */
  lemma ChunksDeliver(c: Chan, ch: u32, h: seq<byte>, chunks: seq<Chunk>)
    requires c.Sane() && ProtocolBase(c.protocol) == ISO15765 && !c.partialActive
    requires Chunked(chunks) && |h| in {4, 5} && HeaderKnown(c.extAnnounced, chunks, |h|)
    requires |h| + |Body(chunks)| <= MSG_MAX
    ensures AbsorbAll(c, Frames(ch, h, chunks))
         == Delivered(c.(extAnnounced := false), Whole(Blank(c, c.extAnnounced, h), chunks))
  {
    hide HasBit, Push, Absorb, Whole, HeaderKnown;
    var k, more := chunks[0], chunks[1..];
    var frames := Frames(ch, h, chunks);
    var blank := Blank(c, c.extAnnounced, h);
    WholeCons(blank, chunks);
    FirstChunk(c, ch, h, k);
    FramesCons(ch, h, chunks);
    if |chunks| == 1 {
      assert AbsorbAll(Absorb(c, frames[0]), []) == Absorb(c, frames[0]);
    } else {
      HeaderKnownRest(c.extAnnounced, chunks, |h|);
      assert Chunked(more);
      Continues(c.(extAnnounced := false, partial := Next(blank, k), partialActive := true), ch, h, more);
    }
  }

  lemma AnnouncementAbsorbed(c: Chan, start: Reply)
    requires c.Sane() && ProtocolBase(c.protocol) == ISO15765 && IsAnnouncement(start) && |start.data| <= MSG_MAX
    ensures Absorb(c, start) == Push(c.Abandoned(), Indication(c, start)).(extAnnounced := HasBit(start.status, STS_EXT_ADDR))
  {
    hide HasBit, Push;
    assert Clip(start.data, MSG_MAX) == start.data;
    PushIgnoresMark(c.Abandoned(), Indication(c, start), HasBit(start.status, STS_EXT_ADDR));
  }

  lemma PushIgnoresMark(c: Chan, m: Msg, ext: bool)
    ensures Push(c.(extAnnounced := ext), m) == Push(c, m).(extAnnounced := ext)
  {
  }

  /** Reassembly inverts chunking. On an ISO 15765 channel, an announcement followed by any division of a body
      into chunks that each repeat the header queues the indication and then one message: the header once,
      the body whole. A message that was in progress is given up, and nothing of it gets into this one. */
  lemma ReassemblyInvertsChunking(c: Chan, start: Reply, h: seq<byte>, chunks: seq<Chunk>)
    requires c.Sane() && ProtocolBase(c.protocol) == ISO15765
    requires IsAnnouncement(start) && |start.data| <= MSG_MAX
    requires Chunked(chunks) && |h| in {4, 5}
    requires HeaderKnown(HasBit(start.status, STS_EXT_ADDR), chunks, |h|)
    requires |h| + |Body(chunks)| <= MSG_MAX
    ensures var m := Whole(Blank(c, HasBit(start.status, STS_EXT_ADDR), h), chunks);
            && m.data == h + Body(chunks) && WellMarked(m) && WellMarked(Indication(c, start))
            && AbsorbAll(c, [start] + Frames(start.channel, h, chunks))
            == Push(Push(c.Abandoned(), Indication(c, start)), m).(partial := m)
  {
    hide HasBit, Whole, HeaderKnown, Absorb, Chunked, Body, Frames, ProtocolBase;
    var ext := HasBit(start.status, STS_EXT_ADDR);
    var c1 := Absorb(c, start);
    AnnouncementAbsorbed(c, start);
    ChunksDeliver(c1, start.channel, h, chunks);
    var frames := [start] + Frames(start.channel, h, chunks);
    assert frames[1..] == Frames(start.channel, h, chunks);
    WholeData(Blank(c, ext, h), chunks);
  }

  lemma WholeData(p: Msg, chunks: seq<Chunk>)
    requires chunks != [] && |p.data| + |Body(chunks)| <= MSG_MAX && !p.rx.IsIndication()
    ensures Whole(p, chunks).data == p.data + Body(chunks) && WellMarked(Whole(p, chunks))
  {
  }

  /** The same without an announcement. */
  lemma UnannouncedReassembles(c: Chan, ch: u32, h: seq<byte>, chunks: seq<Chunk>)
    requires c.Sane() && c.Idle() && ProtocolBase(c.protocol) == ISO15765
    requires Chunked(chunks) && |h| in {4, 5} && HeaderKnown(false, chunks, |h|)
    requires |h| + |Body(chunks)| <= MSG_MAX
    ensures var m := Whole(Blank(c, false, h), chunks);
            && m.data == h + Body(chunks) && WellMarked(m)
            && AbsorbAll(c, Frames(ch, h, chunks)) == Push(c, m).(partial := m)
  {
    hide HasBit, Whole, HeaderKnown, Push;
    ChunksDeliver(c, ch, h, chunks);
    WholeData(Blank(c, false, h), chunks);
    var m := Whole(Blank(c, false, h), chunks);
    PushIgnoresPartial(c, m, m);
  }

  /** Without an announcement a message in progress, its END lost, is not given up: the message delivered is the one
      sent exactly when none was in progress, or one that had no more than this header. */
  lemma UnannouncedIff(c: Chan, ch: u32, h: seq<byte>, chunks: seq<Chunk>)
    requires c.Sane() && ProtocolBase(c.protocol) == ISO15765 && Chunked(chunks) && |h| in {4, 5}
    requires HeaderKnown(if c.partialActive then c.partial.rx.addr else c.extAnnounced, chunks, |h|)
    requires c.partialActive ==> |h| == if c.partial.rx.addr || HasBit(chunks[0].status, STS_EXT_ADDR) then 5 else 4
    requires |h| + |Body(chunks)| <= MSG_MAX && |c.partial.data| + |Body(chunks)| <= MSG_MAX
    ensures var after := AbsorbAll(c, Frames(ch, h, chunks));
            && !after.partialActive
            && after.partial.data == (if c.partialActive then c.partial.data else h) + Body(chunks)
            && (after.partial.data == h + Body(chunks) <==> !c.partialActive || c.partial.data == h)
            && Push(c, after.partial).queue == after.queue
  {
    hide HasBit, HeaderKnown, AbsorbAll, Body, Frames;
    var p := if c.partialActive then c.partial else Blank(c, c.extAnnounced, h);
    if c.partialActive { Continues(c, ch, h, chunks); } else { ChunksDeliver(c, ch, h, chunks); }
    assert Whole(p, chunks).data == p.data + Body(chunks);
    SamePrefix(p.data, h, Body(chunks));
  }

  lemma SamePrefix(a: seq<byte>, b: seq<byte>, rest: seq<byte>)
    ensures a + rest == b + rest <==> a == b
  {
    if a + rest == b + rest {
      assert |a + rest| == |b + rest|;
      assert (a + rest)[..|a|] == a && (b + rest)[..|b|] == b;
    }
  }

  lemma PushIgnoresPartial(c: Chan, p: Msg, m: Msg)
    ensures Push(c.(partial := p), m) == Push(c, m).(partial := p)
  {
  }

  /** With room in the queue, what is pushed is what is queued. */
  lemma PushQueues(c: Chan, m: Msg)
    requires |m.data| <= MSG_MAX && Fits(c, |m.data|)
    ensures Push(c, m) == c.(queue := c.queue + [m])
  {
    assert Clip(m.data, MSG_MAX) == m.data;
  }

  /** With room for both, exactly the indication and the message are queued, and nothing is lost. */
  lemma ReassemblyQueues(c: Chan, start: Reply, h: seq<byte>, chunks: seq<Chunk>)
    requires c.Sane() && ProtocolBase(c.protocol) == ISO15765
    requires IsAnnouncement(start) && |start.data| <= MSG_MAX
    requires Chunked(chunks) && |h| in {4, 5}
    requires HeaderKnown(HasBit(start.status, STS_EXT_ADDR), chunks, |h|)
    requires |h| + |Body(chunks)| <= MSG_MAX
    requires QueueBytes(c.queue) + 2 * QHDR + |start.data| + |h| + |Body(chunks)| <= c.capacity
    ensures var after := AbsorbAll(c, [start] + Frames(start.channel, h, chunks));
            && |after.queue| == |c.queue| + 2 && after.queue[..|c.queue|] == c.queue && after.dropped == c.dropped
            && after.queue[|c.queue|] == Indication(c, start)
            && after.queue[|c.queue| + 1] == Whole(Blank(c, HasBit(start.status, STS_EXT_ADDR), h), chunks)
            && after.queue[|c.queue| + 1].data == h + Body(chunks)
            && after.Idle()
  {
    hide HasBit, Whole, HeaderKnown, AbsorbAll, Push, QueueBytes;
    var ind, m := Indication(c, start), Whole(Blank(c, HasBit(start.status, STS_EXT_ADDR), h), chunks);
    ReassemblyInvertsChunking(c, start, h, chunks);
    PushQueues(c.Abandoned(), ind);
    QueueBytesAppends(c.queue, ind);
    PushQueues(c.Abandoned().(queue := c.queue + [ind]), m);
  }
}
