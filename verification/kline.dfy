/** The K-line layout: data frames without a timestamp between a START and an END that carry nothing
    else. */
module KLine {
  import opened Bytes
  import opened Proto
  import opened Channels
  import Sender
  import Stream
  import Reassembly

  function EchoBit(echo: bool): byte { if echo then STS_LOOPBACK else 0 }

  /** _send_kline, asymmetric layout: the records on the wire. */
  function SendKline(ch: nat, data: seq<byte>, echo: bool, ts: u32): seq<seq<byte>>
    requires ch < CHANNELS
  {
    [Sender.RawFrame(ch, STS_START + EchoBit(echo), Be32(ts))]
    + DataRecords(ch, echo, Sender.Split(data, Sender.KLINE_CHUNK))
    + [Sender.RawFrame(ch, STS_END + EchoBit(echo), Be32(ts))]
  }

  function DataRecords(ch: nat, echo: bool, parts: seq<seq<byte>>): seq<seq<byte>>
    requires ch < CHANNELS && forall i | 0 <= i < |parts| :: |parts[i]| <= 254
  {
    seq(|parts|, i requires 0 <= i < |parts| => Sender.RawFrame(ch, EchoBit(echo), parts[i]))
  }

  function DataReplies(ch: nat, echo: bool, parts: seq<seq<byte>>): (f: seq<Reply>)
    requires ch < CHANNELS
    ensures forall i | 0 <= i < |f| :: f[i].Frame?
  {
    seq(|parts|, i requires 0 <= i < |parts| => Frame(ch, EchoBit(echo), 0, parts[i]))
  }

  /** The frames that carry nothing but the time. */
  function Start(ch: nat, echo: bool, ts: u32): (r: Reply)
    requires ch < CHANNELS
    ensures r.Frame?
  {
    Frame(ch, STS_START + EchoBit(echo), ts, [])
  }

  function End(ch: nat, echo: bool, ts: u32): (r: Reply)
    requires ch < CHANNELS
    ensures r.Frame?
  {
    Frame(ch, STS_END + EchoBit(echo), ts, [])
  }

  function Replies(ch: nat, data: seq<byte>, echo: bool, ts: u32): (f: seq<Reply>)
    requires ch < CHANNELS
    ensures forall i | 0 <= i < |f| :: f[i].Frame?
  {
    [Start(ch, echo, ts)] + BodyReplies(ch, data, echo, ts)
  }

  /** What follows the START. */
  function BodyReplies(ch: nat, data: seq<byte>, echo: bool, ts: u32): (f: seq<Reply>)
    requires ch < CHANNELS
    ensures forall i | 0 <= i < |f| :: f[i].Frame?
  {
    DataReplies(ch, echo, Sender.Split(data, Sender.KLINE_CHUNK)) + [End(ch, echo, ts)]
  }

  /** The channels of the K and L lines. */
  const LINES: set<nat> := {3, 4, 7, 8, 9}

  /** Only START and END bodies are taken for a timestamp; a data frame of exactly four bytes stays
      data. */
  lemma KlineDecodes(ch: nat, data: seq<byte>, echo: bool, ts: u32)
    requires ch in LINES
    ensures Stream.WellFormed(SendKline(ch, data, echo, ts))
    ensures Stream.Decoded(SendKline(ch, data, echo, ts)) == Replies(ch, data, echo, ts)
  {
    hide Parse, Stream.IsRecord, Stream.Short, Be32, Sender.Split, EchoBit, HasBit;
    var recs := SendKline(ch, data, echo, ts);
    var parts := Sender.Split(data, Sender.KLINE_CHUNK);
    forall i | 0 <= i < |recs|
      ensures Stream.IsRecord(recs[i]) && |recs[i]| >= 3 && Stream.Short(recs[i])
      ensures Parse(recs[i]).reply == Replies(ch, data, echo, ts)[i]
    {
      EchoBitsHold(echo);
      if i == 0 {
        StampDecodes(ch, STS_START + EchoBit(echo), ts);
      } else if i <= |parts| {
        Sender.FrameDecodes(ch, EchoBit(echo), parts[i - 1]);
      } else {
        StampDecodes(ch, STS_END + EchoBit(echo), ts);
      }
    }
  }

  lemma EchoBitsHold(echo: bool)
    ensures !HasBit(EchoBit(echo), STS_START) && !HasBit(EchoBit(echo), STS_END)
    ensures HasBit(STS_START + EchoBit(echo), STS_START) && HasBit(STS_END + EchoBit(echo), STS_END)
  {
  }

  lemma StampDecodes(ch: nat, status: byte, ts: u32)
    requires ch in LINES && (HasBit(status, STS_START) || HasBit(status, STS_END))
    ensures var f := Sender.RawFrame(ch, status, Be32(ts));
            Stream.IsRecord(f) && |f| >= 3 && Stream.Short(f) && Parse(f).reply == Frame(ch, status, ts, [])
  {
    hide Parse, Stream.IsRecord, Stream.Short, Be32;
    Sender.FrameDecodes(ch, status, Be32(ts));
    Be32RoundTrip(ts, []);
    assert Be32(ts) + [] == Be32(ts);
  }

  /** The message in progress with `data` in it. */
  function Holding(p: Msg, data: seq<byte>): Msg
  {
    var kept := Clip(data, MSG_MAX);
    p.(data := kept, extra := |kept|)
  }

  lemma {:induction false} AbsorbAppends(c: Chan, a: seq<Reply>, b: seq<Reply>)
    requires c.Sane() && forall i | 0 <= i < |a| :: a[i].Frame?
    requires forall i | 0 <= i < |b| :: b[i].Frame?
    ensures AbsorbAll(c, a + b) == AbsorbAll(AbsorbAll(c, a), b)
    decreases |a|
  {
    hide Absorb;
    if a == [] {
      assert a + b == b;
    } else {
      AbsorbAppends(Absorb(c, a[0]), a[1..], b);
      assert (a + b)[1..] == a[1..] + b;
    }
  }

  /** Data frames accumulate, up to the size of a message. */
  lemma {:induction false} DataAccumulates(c: Chan, ch: nat, echo: bool, parts: seq<seq<byte>>, p: Msg, data: seq<byte>)
    requires c.Sane() && !CanLike(c.protocol) && ch < CHANNELS
    requires c.partialActive && c.partial == Holding(p, data) && p.timestamp == 0 && p.rx == PLAIN.(tx := echo)
    ensures AbsorbAll(c, DataReplies(ch, echo, parts)) == c.(partial := Holding(p, data + Concat(parts)))
    decreases |parts|
  {
    hide Absorb;
    if parts == [] {
      assert data + Concat(parts) == data;
    } else {
      var r := Frame(ch, EchoBit(echo), 0, parts[0]);
      DataStep(c, r, echo, p, data);
      DataAccumulates(Absorb(c, r), ch, echo, parts[1..], p, data + parts[0]);
      assert DataReplies(ch, echo, parts)[1..] == DataReplies(ch, echo, parts[1..]);
      assert data + parts[0] + Concat(parts[1..]) == data + Concat(parts);
    }
  }

  lemma DataStep(c: Chan, r: Reply, echo: bool, p: Msg, data: seq<byte>)
    requires c.Sane() && !CanLike(c.protocol) && r.Frame? && r.status == EchoBit(echo) && r.timestamp == 0
    requires c.partialActive && c.partial == Holding(p, data) && p.timestamp == 0 && p.rx == PLAIN.(tx := echo)
    ensures Absorb(c, r) == c.(partial := Holding(p, data + r.data))
  {
    assert r.data[0..] == r.data;
    var kept := Clip(data, MSG_MAX);
    assert kept + Clip(r.data, MSG_MAX - |kept|) == Clip(data + r.data, MSG_MAX);
  }

  /** The one message the sequence delivers. */
  function Delivered(c: Chan, data: seq<byte>, echo: bool, ts: u32): Msg
  {
    Holding(Msg(c.protocol, PLAIN.(tx := echo), 0, ts, 0, []), data)
  }

  function Announced(c: Chan, ts: u32): Msg
  {
    Msg(c.protocol, PLAIN.(first := true), 0, ts, 0, [])
  }

  lemma KlineAbsorbed(c: Chan, ch: nat, data: seq<byte>, echo: bool, ts: u32)
    requires c.Sane() && !CanLike(c.protocol) && ch < CHANNELS
    ensures var m := Delivered(c, data, echo, ts);
            AbsorbAll(c, Replies(ch, data, echo, ts)) == Push(Push(c.Abandoned(), Announced(c, ts)), m).(partial := m)
  {
    hide AbsorbAll, Absorb, Push, DataReplies, BodyReplies, Holding, Delivered, CanLike, Start, End, Announced;
    var c1 := Push(c.Abandoned(), Announced(c, ts));
    StartAnnounces(c, ch, echo, ts);
    PushKeepsRest(c.Abandoned(), Announced(c, ts));
    AbsorbOne(c, Start(ch, echo, ts), BodyReplies(ch, data, echo, ts));
    BodyAbsorbed(c1, ch, data, echo, ts);
    DeliveredSame(c, c1, data, echo, ts);
  }

  lemma DeliveredSame(c: Chan, c1: Chan, data: seq<byte>, echo: bool, ts: u32)
    requires c.protocol == c1.protocol
    ensures Delivered(c, data, echo, ts) == Delivered(c1, data, echo, ts)
  {
  }

  lemma BodyAbsorbed(c: Chan, ch: nat, data: seq<byte>, echo: bool, ts: u32)
    requires c.Sane() && c.Idle() && !CanLike(c.protocol) && ch < CHANNELS
    ensures var m := Delivered(c, data, echo, ts);
            AbsorbAll(c, BodyReplies(ch, data, echo, ts)) == Push(c, m).(partial := m)
  {
    hide AbsorbAll, Absorb, Push, DataReplies, Holding, CanLike, Start, Delivered;
    var end := End(ch, echo, ts);
    var parts := Sender.Split(data, Sender.KLINE_CHUNK);
    var body := DataReplies(ch, echo, parts);
    var p := Msg(c.protocol, PLAIN.(tx := echo), 0, 0, 0, []);
    DataReceived(c, ch, echo, parts, p);
    var c2 := c.(partial := Holding(p, data), partialActive := true);
    EndDelivers(c2, end, echo, p, data);
    DeliveredSame(c, c2, data, echo, ts);
    Reassembly.PushIgnoresPartial(c, c2.partial, Delivered(c, data, echo, ts));
    assert c2.(partialActive := false) == c.(partial := c2.partial);
    AbsorbAppends(c, body, [end]);
    AbsorbOne(c2, end, []);
    NothingAbsorbed(Absorb(c2, end));
    assert [end] + [] == [end];
  }

  lemma PushKeepsRest(c: Chan, m: Msg)
    ensures var c' := Push(c, m);
            c' == c.(queue := c'.queue, dropped := c'.dropped)
  {
  }

  lemma DataReceived(c: Chan, ch: nat, echo: bool, parts: seq<seq<byte>>, p: Msg)
    requires c.Sane() && c.Idle() && !CanLike(c.protocol) && ch < CHANNELS && parts != []
    requires p == Msg(c.protocol, PLAIN.(tx := echo), 0, 0, 0, [])
    ensures AbsorbAll(c, DataReplies(ch, echo, parts))
         == c.(partial := Holding(p, Concat(parts)), partialActive := true)
  {
    hide AbsorbAll, Absorb, Holding;
    var first := Frame(ch, EchoBit(echo), 0, parts[0]);
    FirstData(c, first, echo, p);
    DataAccumulates(Absorb(c, first), ch, echo, parts[1..], p, parts[0]);
    AbsorbOne(c, first, DataReplies(ch, echo, parts[1..]));
    assert DataReplies(ch, echo, parts) == [first] + DataReplies(ch, echo, parts[1..]);
  }

  lemma AbsorbOne(c: Chan, r: Reply, more: seq<Reply>)
    requires c.Sane() && r.Frame? && forall i | 0 <= i < |more| :: more[i].Frame?
    ensures AbsorbAll(c, [r] + more) == AbsorbAll(Absorb(c, r), more)
  {
    hide Absorb;
    assert ([r] + more)[1..] == more;
  }

  lemma NothingAbsorbed(c: Chan)
    requires c.Sane()
    ensures AbsorbAll(c, []) == c
  {
  }

  lemma StartAnnounces(c: Chan, ch: nat, echo: bool, ts: u32)
    requires c.Sane() && !CanLike(c.protocol) && ch < CHANNELS
    ensures Absorb(c, Start(ch, echo, ts)) == Push(c.Abandoned(), Announced(c, ts))
  {
    hide Push;
  }

  lemma FirstData(c: Chan, r: Reply, echo: bool, p: Msg)
    requires c.Sane() && c.Idle() && !CanLike(c.protocol) && r.Frame?
    requires r.status == EchoBit(echo) && r.timestamp == 0
    requires p == Msg(c.protocol, PLAIN.(tx := echo), 0, 0, 0, [])
    ensures Absorb(c, r) == c.(partial := Holding(p, r.data), partialActive := true)
  {
    assert r.data[0..] == r.data;
    assert [] + Clip(r.data, MSG_MAX) == Clip(r.data, MSG_MAX);
  }

  lemma EndDelivers(c: Chan, r: Reply, echo: bool, p: Msg, data: seq<byte>)
    requires c.Sane() && !CanLike(c.protocol) && r.Frame? && r.status == STS_END + EchoBit(echo) && r.data == []
    requires c.partialActive && c.partial == Holding(p, data)
    requires p == Msg(c.protocol, PLAIN.(tx := echo), 0, 0, 0, []) && !c.extAnnounced
    ensures var m := Delivered(c, data, echo, r.timestamp);
            Absorb(c, r) == Push(c.(partialActive := false), m).(partial := m)
  {
    hide Push;
    var m := Delivered(c, data, echo, r.timestamp);
    assert Extend(c, r) == m;
    Reassembly.PushIgnoresPartial(c.(partialActive := false), m, m);
  }

  /** K-line round trip, whatever message was under way on the channel: the data comes out as one empty START_OF_MESSAGE indication and one message,
      marked as a transmit echo exactly when it is one, with exactly the data that went in if and
      only if it fits a message. */
  lemma KlineRoundTrip(c: Chan, ch: nat, data: seq<byte>, echo: bool, ts: u32, chunks: seq<seq<byte>>)
    requires c.Sane() && !CanLike(c.protocol) && ch in LINES
    requires Stream.Reads(chunks) && Concat(chunks) == Concat(SendKline(ch, data, echo, ts))
    ensures var r, m := Stream.FeedAll(chunks), Delivered(c, data, echo, ts);
            && r.accum == [] && (forall i | 0 <= i < |r.emitted| :: r.emitted[i].Frame?)
            && AbsorbAll(c, r.emitted) == Push(Push(c.Abandoned(), Announced(c, ts)), m).(partial := m)
            && m.rx.tx == echo && WellMarked(m)
            && (m.data == data <==> |data| <= MSG_MAX)
  {
    hide AbsorbAll, Push, Stream.FeedAll, SendKline, Replies;
    KlineDecodes(ch, data, echo, ts);
    Stream.WholeStream(SendKline(ch, data, echo, ts), chunks);
    KlineAbsorbed(c, ch, data, echo, ts);
  }
}
