/** The simulated cable as a sender: how one message becomes wire frames on a CAN-type channel and
    on a K line, and that it comes out of the driver's queue as it went in. */
module Sender {
  import opened Bytes
  import opened Proto
  import opened Channels
  import Reassembly
  import Stream

  const KLINE_CHUNK: nat := 254

  /** A wire frame: 'a' 'r' <digit> <len> <status> <body>. */
  function RawFrame(ch: nat, status: byte, body: seq<byte>): seq<byte>
    requires ch < CHANNELS && |body| <= 254
  {
    ['a' as int, 'r' as int, '0' as int + ch, 1 + |body|, status] + body
  }

  /** A CAN-layout frame: the timestamp in front of the payload. */
  function CanFrame(ch: nat, status: byte, ts: u32, payload: seq<byte>): seq<byte>
    requires ch < CHANNELS && |payload| <= 250
  {
    RawFrame(ch, status, Be32(ts) + payload)
  }

  /** A frame decodes to its own fields, and is a record in the sense of read-boundary independence. On the
      CAN channels 5 and 6 the first four bytes of the body are the timestamp wherever there are four; on
      any other channel only a body of exactly four bytes is one, and only in a START or an END. */
  lemma FrameDecodes(ch: nat, status: byte, body: seq<byte>)
    requires ch < CHANNELS && |body| <= 254
    ensures var f := RawFrame(ch, status, body);
            var edge := HasBit(status, STS_START) || HasBit(status, STS_END);
            && Stream.IsRecord(f) && |f| >= 3 && Stream.Short(f)
            && (ch in {5, 6} && |body| >= 4 ==> Parse(f).reply == Frame(ch, status, ReadBe32(body), body[4..]))
            && (ch in {5, 6} && |body| < 4 ==> Parse(f).reply == Frame(ch, status, 0, body))
            && (ch !in {5, 6} && edge && |body| == 4 ==> Parse(f).reply == Frame(ch, status, ReadBe32(body), []))
            && (ch !in {5, 6} && (!edge || |body| != 4) ==> Parse(f).reply == Frame(ch, status, 0, body))
  {
    var f := RawFrame(ch, status, body);
    assert f[..FrameNeed(f)] == f;
    assert f[5..] == body;
    assert |body| >= 4 ==> f[9..] == body[4..];
  }

  /** _split: pieces of `n` bytes, the last one shorter; one empty piece for no data. */
  function Split(data: seq<byte>, n: nat): (parts: seq<seq<byte>>)
    requires n > 0
    ensures parts != [] && Concat(parts) == data
    ensures forall i | 0 <= i < |parts| :: |parts[i]| <= n
    decreases |data|
  {
    if |data| <= n then
      assert Concat([data]) == data;
      [data]
    else [data[..n]] + Split(data[n..], n)
  }

  /** The pieces a segmented message's body arrives in: 69 bytes, then 70 at a time. */
  function CanPieces(body: seq<byte>): (parts: seq<seq<byte>>)
    ensures parts != [] && Concat(parts) == body
    ensures forall i | 0 <= i < |parts| :: |parts[i]| <= 70 || |parts[i]| == |body| <= 69
  {
    if |body| > 69 then [body[..69]] + Split(body[69..], 70)
    else
      assert Concat([body]) == body;
      [body]
  }

  /** A frame before it is stamped and numbered: status and payload. */
  datatype Piece = Piece(status: byte, payload: seq<byte>)

  /** The data frames of a message, each repeating the CAN id, the last one marked END. */
  function DataFrames(id: seq<byte>, parts: seq<seq<byte>>): seq<Piece>
  {
    seq(|parts|, i requires 0 <= i < |parts| =>
      Piece(if i == |parts| - 1 then STS_END else 0, id + parts[i]))
  }

  /** can_frames with the measured framing and chunking. */
  function CanFrames(id: seq<byte>, body: seq<byte>): (f: seq<Piece>)
    requires |id| == 4
    ensures forall i | 0 <= i < |f| :: |f[i].payload| <= 250
  {
    if |body| > 7 then [Piece(STS_START, id)] + DataFrames(id, CanPieces(body)) else [Piece(STS_END, id + body)]
  }

  /** The records on the wire, stamped as they are sent. */
  function Stamped(ch: nat, pieces: seq<Piece>, ts: seq<u32>): seq<seq<byte>>
    requires ch < CHANNELS && |ts| == |pieces| && forall i | 0 <= i < |pieces| :: |pieces[i].payload| <= 250
  {
    seq(|pieces|, i requires 0 <= i < |pieces| => CanFrame(ch, pieces[i].status, ts[i], pieces[i].payload))
  }

  function Replies(ch: nat, pieces: seq<Piece>, ts: seq<u32>): (f: seq<Reply>)
    requires ch < CHANNELS && |ts| == |pieces|
    ensures forall i | 0 <= i < |f| :: f[i].Frame?
  {
    seq(|pieces|, i requires 0 <= i < |pieces| => Frame(ch, pieces[i].status, ts[i], pieces[i].payload))
  }

  lemma StampedDecode(ch: nat, pieces: seq<Piece>, ts: seq<u32>)
    requires ch in {5, 6} && |ts| == |pieces| && forall i | 0 <= i < |pieces| :: |pieces[i].payload| <= 250
    ensures Stream.WellFormed(Stamped(ch, pieces, ts))
    ensures Stream.Decoded(Stamped(ch, pieces, ts)) == Replies(ch, pieces, ts)
  {
    hide Parse, Stream.IsRecord, Stream.Short;
    var recs := Stamped(ch, pieces, ts);
    forall i | 0 <= i < |pieces|
      ensures Stream.IsRecord(recs[i]) && |recs[i]| >= 3 && Stream.Short(recs[i])
      ensures Parse(recs[i]).reply == Replies(ch, pieces, ts)[i]
    {
      var body := Be32(ts[i]) + pieces[i].payload;
      FrameDecodes(ch, pieces[i].status, body);
      Be32RoundTrip(ts[i], pieces[i].payload);
      assert body[4..] == pieces[i].payload;
    }
  }

  function Chunks(parts: seq<seq<byte>>, ts: seq<u32>): seq<Reassembly.Chunk>
    requires |ts| == |parts|
  {
    seq(|parts|, i requires 0 <= i < |parts| =>
      Reassembly.Chunk(if i == |parts| - 1 then STS_END else 0, ts[i], parts[i]))
  }

  lemma {:induction false} ChunksBody(chunks: seq<Reassembly.Chunk>, parts: seq<seq<byte>>)
    requires |chunks| == |parts| && forall i | 0 <= i < |parts| :: chunks[i].body == parts[i]
    ensures Reassembly.Body(chunks) == Concat(parts)
  {
    if parts != [] { ChunksBody(chunks[1..], parts[1..]); }
  }

  /** The channel after the message `id + body` and, when it was segmented, its announcement. */
  function Received(c: Chan, id: seq<byte>, body: seq<byte>, ts: seq<u32>): Chan
    requires |id| == 4 && |id + body| <= MSG_MAX && |ts| == |CanFrames(id, body)|
  {
    var m := Msg(c.protocol, PLAIN, 0, ts[|ts| - 1], |id + body|, id + body);
    var start := Msg(c.protocol, PLAIN.(first := true), 0, ts[0], 0, id);
    Push(if |body| > 7 then Push(c.Abandoned(), start) else c, m).(partial := m)
  }

  lemma RepliesAreChunks(id: seq<byte>, parts: seq<seq<byte>>, ts: seq<u32>)
    requires |ts| == |parts|
    ensures Replies(6, DataFrames(id, parts), ts) == Reassembly.Frames(6, id, Chunks(parts, ts))
  {
  }

  lemma SegmentedAbsorbed(c: Chan, id: seq<byte>, body: seq<byte>, ts: seq<u32>)
    requires c.Sane() && ProtocolBase(c.protocol) == ISO15765
    requires |id| == 4 && |id + body| <= MSG_MAX && |body| > 7 && |ts| == 1 + |CanPieces(body)|
    ensures AbsorbAll(c, Replies(6, [Piece(STS_START, id)] + DataFrames(id, CanPieces(body)), ts))
         == Push(Push(c.Abandoned(), Msg(c.protocol, PLAIN.(first := true), 0, ts[0], 0, id)),
                 Msg(c.protocol, PLAIN, 0, ts[|ts| - 1], |id + body|, id + body))
            .(partial := Msg(c.protocol, PLAIN, 0, ts[|ts| - 1], |id + body|, id + body))
  {
    hide Absorb, AbsorbAll, Push, Reassembly.Whole, Reassembly.Body, Reassembly.Marks, Reassembly.HeaderKnown,
      Reassembly.Chunked, CanPieces, DataFrames, Reassembly.Frames;
    var parts := CanPieces(body);
    var chunks := Chunks(parts, ts[1..]);
    ChunksBody(chunks, parts);
    ChunksHaveNoMarks(chunks);
    WholeOfUnmarked(c, id, chunks);
    var start := Frame(6, STS_START, ts[0], id);
    Reassembly.ReassemblyInvertsChunking(c, start, id, chunks);
    RepliesAreChunks(id, parts, ts[1..]);
    assert Replies(6, [Piece(STS_START, id)] + DataFrames(id, parts), ts)
        == [start] + Replies(6, DataFrames(id, parts), ts[1..]);
  }

  lemma SingleAbsorbed(c: Chan, id: seq<byte>, body: seq<byte>, ts: seq<u32>)
    requires c.Sane() && c.Idle() && ProtocolBase(c.protocol) == ISO15765
    requires |id| == 4 && |id + body| <= MSG_MAX && |ts| == 1
    ensures AbsorbAll(c, Replies(6, [Piece(STS_END, id + body)], ts))
         == Push(c, Msg(c.protocol, PLAIN, 0, ts[0], |id + body|, id + body))
            .(partial := Msg(c.protocol, PLAIN, 0, ts[0], |id + body|, id + body))
  {
    hide Absorb, AbsorbAll, Push, Reassembly.Whole, Reassembly.Body, Reassembly.Marks, Reassembly.HeaderKnown,
      Reassembly.Chunked;
    var chunks := Chunks([body], ts);
    assert Concat([body]) == body;
    ChunksBody(chunks, [body]);
    ChunksHaveNoMarks(chunks);
    WholeOfUnmarked(c, id, chunks);
    Reassembly.UnannouncedReassembles(c, 6, id, chunks);
    assert Replies(6, [Piece(STS_END, id + body)], ts) == Reassembly.Frames(6, id, chunks);
  }

  lemma CanFramesAbsorbed(c: Chan, id: seq<byte>, body: seq<byte>, ts: seq<u32>)
    requires c.Sane() && (|body| <= 7 ==> c.Idle()) && ProtocolBase(c.protocol) == ISO15765
    requires |id| == 4 && |id + body| <= MSG_MAX && |ts| == |CanFrames(id, body)|
    ensures AbsorbAll(c, Replies(6, CanFrames(id, body), ts)) == Received(c, id, body, ts)
  {
    hide AbsorbAll, Push, Replies, CanPieces;
    if |body| > 7 {
      SegmentedAbsorbed(c, id, body, ts);
    } else {
      SingleAbsorbed(c, id, body, ts);
    }
  }

  lemma WholeOfUnmarked(c: Chan, id: seq<byte>, chunks: seq<Reassembly.Chunk>)
    requires chunks != [] && |id| == 4 && |id| + |Reassembly.Body(chunks)| <= MSG_MAX
    requires !Reassembly.Marks(chunks, STS_LOOPBACK) && !Reassembly.Marks(chunks, STS_EXT_ADDR)
    requires !Reassembly.Marks(chunks, STS_29BIT)
    ensures var data := id + Reassembly.Body(chunks);
            Reassembly.Whole(Reassembly.Blank(c, false, id), chunks)
            == Msg(c.protocol, PLAIN, 0, chunks[|chunks| - 1].timestamp, |data|, data)
  {
  }

  lemma ChunksHaveNoMarks(chunks: seq<Reassembly.Chunk>)
    requires chunks != []
    requires forall i | 0 <= i < |chunks| :: chunks[i].status == if i == |chunks| - 1 then STS_END else 0
    ensures Reassembly.Chunked(chunks) && Reassembly.HeaderKnown(false, chunks, 4)
    ensures !Reassembly.Marks(chunks, STS_LOOPBACK) && !Reassembly.Marks(chunks, STS_EXT_ADDR)
    ensures !Reassembly.Marks(chunks, STS_29BIT)
  {
    forall k | 1 <= k < |chunks| ensures !Reassembly.MarkedBy(false, chunks, k) {
    }
  }

  /** End to end: a message the cable sends, cut into wire frames and read in any pieces, is queued
      as its announcement (when it needed segmentation) and the message itself, id once. An announced
      message comes out so whatever was in progress on the channel. */
  lemma CanMessageRoundTrip(c: Chan, id: seq<byte>, body: seq<byte>, ts: seq<u32>, chunks: seq<seq<byte>>)
    requires c.Sane() && (|body| <= 7 ==> c.Idle()) && ProtocolBase(c.protocol) == ISO15765
    requires |id| == 4 && |id + body| <= MSG_MAX && |ts| == |CanFrames(id, body)|
    requires Stream.Reads(chunks) && Concat(chunks) == Concat(Stamped(6, CanFrames(id, body), ts))
    ensures var r := Stream.FeedAll(chunks);
            && r.accum == [] && (forall i | 0 <= i < |r.emitted| :: r.emitted[i].Frame?)
            && AbsorbAll(c, r.emitted) == Received(c, id, body, ts)
  {
    hide AbsorbAll, Received, Stream.FeedAll, Stamped, CanFrames;
    var pieces := CanFrames(id, body);
    StampedDecode(6, pieces, ts);
    Stream.WholeStream(Stamped(6, pieces, ts), chunks);
    CanFramesAbsorbed(c, id, body, ts);
  }

  /** The indication that one's own ISO 15765 message has gone out, 0x10: a message of its own, marked TX_DONE and
      with the frame's bytes, that leaves the message in progress alone. */
  lemma TransmitIndicated(c: Chan, p: Piece, ts: u32)
    requires c.Sane() && ProtocolBase(c.protocol) == ISO15765 && HasBit(p.status, 0x10) && |p.payload| <= MSG_MAX
    ensures Absorb(c, Frame(6, p.status, ts, p.payload))
         == Push(c, Msg(c.protocol, RxStatus(true, false, true, HasBit(p.status, 0x04), HasBit(p.status, 0x02)), 0, ts, 0, p.payload))
  {
    hide Push;
    assert Clip(p.payload, MSG_MAX) == p.payload;
  }

  /** A frame of channel 5 that is not open, marked as a loopback, 0x20, reaches channel 6 alone, as raw CAN; one not
      so marked reaches none. */
  lemma LoopbackReachesIso(chs: seq<Chan>, p: Piece, ts: u32)
    requires SaneAll(chs) && !chs[5].open && chs[6].open && |p.payload| <= MSG_MAX
    ensures Dispatch(chs, Frame(5, p.status, ts, p.payload))
         == if !HasBit(p.status, 0x20) then chs
            else chs[6 := Push(chs[6], Msg(CAN, RxStatus(true, false, false, false, HasBit(p.status, 0x02)), 0, ts, |p.payload|, p.payload))]
  {
    hide Push;
    assert Clip(p.payload, MSG_MAX) == p.payload;
  }

  /** What a raw CAN frame is to its channel: a message of its own, a loopback of one's own frame 0x20, a 29-bit
      id 0x02; or, at 0x10, the indication that one's own frame has gone out. */
  function RawCanMsg(protocol: u32, p: Piece, ts: u32): Msg
    requires |p.payload| <= 250
  {
    var sent, loopback, wide := HasBit(p.status, 0x10), HasBit(p.status, 0x20), HasBit(p.status, 0x02);
    Msg(protocol, RxStatus(sent || loopback, false, sent, false, wide), 0, ts, if sent then 0 else |p.payload|, p.payload)
  }

  function RawCanMsgs(protocol: u32, pieces: seq<Piece>, ts: seq<u32>): seq<Msg>
    requires |ts| == |pieces| && forall i | 0 <= i < |pieces| :: |pieces[i].payload| <= 250
  {
    seq(|pieces|, i requires 0 <= i < |pieces| => RawCanMsg(protocol, pieces[i], ts[i]))
  }

  lemma RawCanAbsorbed(c: Chan, p: Piece, ts: u32)
    requires c.Sane() && ProtocolBase(c.protocol) == CAN && |p.payload| <= 250
    ensures Absorb(c, Frame(5, p.status, ts, p.payload)) == Push(c, RawCanMsg(c.protocol, p, ts))
  {
    hide Push;
    assert Clip(p.payload, MSG_MAX) == p.payload;
  }

  lemma {:induction false} RawCanAllAbsorbed(c: Chan, pieces: seq<Piece>, ts: seq<u32>)
    requires c.Sane() && ProtocolBase(c.protocol) == CAN
    requires |ts| == |pieces| && forall i | 0 <= i < |pieces| :: |pieces[i].payload| <= 250
    ensures AbsorbAll(c, Replies(5, pieces, ts)) == PushAll(c, RawCanMsgs(c.protocol, pieces, ts))
    decreases |pieces|
  {
    hide Absorb, Push, RawCanMsg;
    var msgs, frames := RawCanMsgs(c.protocol, pieces, ts), Replies(5, pieces, ts);
    if pieces != [] {
      RawCanAbsorbed(c, pieces[0], ts[0]);
      RawCanAllAbsorbed(Absorb(c, frames[0]), pieces[1..], ts[1..]);
      assert frames[1..] == Replies(5, pieces[1..], ts[1..]);
      assert msgs == [msgs[0]] + RawCanMsgs(c.protocol, pieces[1..], ts[1..]);
      PushOne(c, msgs[0]);
      PushAllAppends(c, [msgs[0]], RawCanMsgs(c.protocol, pieces[1..], ts[1..]));
    }
  }

  /** Raw CAN end to end: any frames on channel 5, read in any pieces, are queued as far as there is room, each
      as one message with its marks, its timestamp and its bytes. */
  lemma RawCanRoundTrip(c: Chan, pieces: seq<Piece>, ts: seq<u32>, chunks: seq<seq<byte>>)
    requires c.Sane() && ProtocolBase(c.protocol) == CAN
    requires |ts| == |pieces| && forall i | 0 <= i < |pieces| :: |pieces[i].payload| <= 250
    requires Stream.Reads(chunks) && Concat(chunks) == Concat(Stamped(5, pieces, ts))
    ensures var r := Stream.FeedAll(chunks);
            && r.accum == [] && (forall i | 0 <= i < |r.emitted| :: r.emitted[i].Frame?)
            && AbsorbAll(c, r.emitted) == PushAll(c, RawCanMsgs(c.protocol, pieces, ts))
  {
    hide AbsorbAll, Stream.FeedAll, Stamped, Push;
    StampedDecode(5, pieces, ts);
    Stream.WholeStream(Stamped(5, pieces, ts), chunks);
    RawCanAllAbsorbed(c, pieces, ts);
  }

  /** What any ISO 15765 sender puts on the wire for a message cut up in any way: its announcement, then
      the chunks, each behind the header. */
  function ChunkPieces(start: Reply, h: seq<byte>, chunks: seq<Reassembly.Chunk>): seq<Piece>
    requires start.Frame?
  {
    [Piece(start.status, start.data)]
    + seq(|chunks|, i requires 0 <= i < |chunks| => Piece(chunks[i].status, h + chunks[i].body))
  }

  function ChunkStamps(start: Reply, chunks: seq<Reassembly.Chunk>): seq<u32>
    requires start.Frame?
  {
    [start.timestamp] + seq(|chunks|, i requires 0 <= i < |chunks| => chunks[i].timestamp)
  }

  /** The same end to end for every header and every division into chunks that fit a frame: through the
      wire encoding, any reads, the parser and reassembly, the message comes out with its header once
      and its body whole. can_frames is one such sender. */
  lemma AnyChunkingRoundTrip(c: Chan, start: Reply, h: seq<byte>, chunks: seq<Reassembly.Chunk>, reading: seq<seq<byte>>)
    requires c.Sane() && ProtocolBase(c.protocol) == ISO15765
    requires Reassembly.IsAnnouncement(start) && start.channel == 6 && |start.data| <= 250
    requires Reassembly.Chunked(chunks) && |h| in {4, 5}
    requires Reassembly.HeaderKnown(HasBit(start.status, STS_EXT_ADDR), chunks, |h|)
    requires |h| + |Reassembly.Body(chunks)| <= MSG_MAX
    requires forall i | 0 <= i < |ChunkPieces(start, h, chunks)| :: |ChunkPieces(start, h, chunks)[i].payload| <= 250
    requires Stream.Reads(reading)
    requires Concat(reading) == Concat(Stamped(6, ChunkPieces(start, h, chunks), ChunkStamps(start, chunks)))
    ensures var r := Stream.FeedAll(reading);
            var m := Reassembly.Whole(Reassembly.Blank(c, HasBit(start.status, STS_EXT_ADDR), h), chunks);
            && r.accum == [] && (forall i | 0 <= i < |r.emitted| :: r.emitted[i].Frame?)
            && m.data == h + Reassembly.Body(chunks) && WellMarked(m)
            && AbsorbAll(c, r.emitted) == Push(Push(c.Abandoned(), Reassembly.Indication(c, start)), m).(partial := m)
  {
    hide AbsorbAll, Push, Stream.FeedAll, Reassembly.Whole, Reassembly.Body, Reassembly.HeaderKnown, Reassembly.Chunked,
      HasBit, Stamped;
    var pieces, ts := ChunkPieces(start, h, chunks), ChunkStamps(start, chunks);
    StampedDecode(6, pieces, ts);
    Stream.WholeStream(Stamped(6, pieces, ts), reading);
    assert Replies(6, pieces, ts) == [start] + Reassembly.Frames(6, h, chunks);
    Reassembly.ReassemblyInvertsChunking(c, start, h, chunks);
  }
}
