/** The receive path as a whole: everything the cable sends, text replies, their raw bytes and frames
    mixed on one pipe, through the reader into the channels and the reply slot. */
module Pipeline {
  import opened Bytes
  import opened Decimal
  import opened Proto
  import opened ReplyText
  import opened Stream
  import Channels
  import Device
  import Sender
  import Slots

  /** One thing the cable sends: any text reply, an `arw` line of at most eight tokens, a frame with a timestamp
      or one without. */
  datatype Item =
    | Text(reply: Reply)
    | KeyLine(ch: u32, tokens: seq<u32>)
    | Timed(channel: nat, status: byte, timestamp: u32, payload: seq<byte>)
    | Plain(channel: nat, status: byte, payload: seq<byte>)

  predicate OnEdge(status: byte) { HasBit(status, STS_START) || HasBit(status, STS_END) }

  predicate Sendable(item: Item)
  {
    match item
    case Text(r) => Printable(r) && (r.Info? ==> |r.text| <= 251)
    case KeyLine(_, tokens) => |tokens| <= TAIL_MAX
    case Timed(ch, status, _, payload) =>
      if ch in {5, 6} then |payload| <= 250 else ch < Channels.CHANNELS && payload == [] && OnEdge(status)
    case Plain(ch, status, payload) =>
      if ch in {5, 6} then |payload| < 4
      else ch < Channels.CHANNELS && |payload| <= 254 && (|payload| == 4 ==> !OnEdge(status))
  }

  function Sent(item: Item): seq<byte>
    requires Sendable(item)
  {
    match item
    case Text(r) => Wire(r)
    case KeyLine(ch, tokens) => Line(KeyBytesBody(ch, tokens))
    case Timed(ch, status, timestamp, payload) => Sender.RawFrame(ch, status, Be32(timestamp) + payload)
    case Plain(ch, status, payload) => Sender.RawFrame(ch, status, payload)
  }

  /** What it means. */
  function Meaning(item: Item): Reply
    requires Sendable(item)
  {
    match item
    case Text(r) => r
    case KeyLine(ch, tokens) => Init(ch, 0, tokens, [])
    case Timed(ch, status, timestamp, payload) => Frame(ch, status, timestamp, payload)
    case Plain(ch, status, payload) => Frame(ch, status, 0, payload)
  }

  /** A printed reply is a record of the stream exactly as far as parsing goes, and one whose beginnings
      all wait for the rest exactly when its line is short enough. */
  lemma TextIsRecord(r: Reply)
    requires Printable(r)
    ensures IsRecord(Wire(r)) && Parse(Wire(r)).reply == r && |Wire(r)| >= 3
    ensures (forall k | 0 <= k < |Wire(r)| :: Parse(Wire(r)[..k]).used == 0) <==> |Body(r)| <= 253
  {
    hide Parse, Body, IsRecord;
    var wire := Wire(r);
    TextRoundTrip(r, []);
    assert wire + [] == wire;
    BodyShape(r);
    LineIsRecord(Body(r), if r.Init? then r.data else []);
    RecordIs(wire);
    PrefixesWait(wire);
  }

  lemma RecordIs(rec: seq<byte>)
    ensures IsRecord(rec) <==> Parse(rec).used == |rec| > 0 && !Parse(rec).reply.Junk?
  {
  }

  lemma LineIsRecord(body: seq<byte>, raw: seq<byte>)
    requires body != [] && CR !in body && !IsDigit(body[0])
    ensures Short(Line(body) + raw) <==> |body| <= 253
  {
    LineEndsAt(body, raw);
    assert (Line(body) + raw)[2] == body[0];
  }

  lemma {:induction false} TailLength(tokens: seq<u32>)
    ensures |Tail(tokens)| <= 11 * |tokens|
  {
    hide Dec;
    if tokens != [] {
      DecLength(tokens[0]);
      TailLength(tokens[1..]);
    }
  }

  /** Every reply made of numbers has a short line; only the text of an `ari` can be too long. */
  lemma NumericRepliesAreShort(r: Reply)
    requires Printable(r) && !r.Info?
    ensures |Body(r)| <= 253
  {
    hide Dec, Tail;
    TailLength(r.tail);
    match r
    case Error(code, _, _, _) => DecLength(code);
    case Pin(pin, mv, _) => DecLength(pin); DecLength(mv);
    case Filter(ch, id, _) => DecLength(ch); DecLength(id);
    case Periodic(ch, id, _) => DecLength(ch); DecLength(id);
    case Config(ch, param, value, _) => DecLength(ch); DecLength(param); DecLength(value);
    case Init(ch, count, _, _) => DecLength(ch); DecLength(count);
    case _ =>
  }

  lemma InfoLength(r: Reply)
    requires Printable(r) && r.Info?
    ensures |Body(r)| == |r.text| + 2
  {
  }

  lemma ItemIsRecord(item: Item)
    requires Sendable(item)
    ensures IsRecord(Sent(item)) && |Sent(item)| >= 3 && Short(Sent(item)) && Parse(Sent(item)).reply == Meaning(item)
  {
    hide Parse, IsRecord, Short, Body, Be32, ReadBe32, HasBit;
    match item
    case Text(r) =>
      if r.Info? { InfoLength(r); } else { NumericRepliesAreShort(r); }
      TextIsRecord(r);
      PrefixesWait(Wire(r));
    case KeyLine(ch, tokens) => KeyLineIsRecord(ch, tokens);
    case Timed(ch, status, timestamp, payload) =>
      Sender.FrameDecodes(ch, status, Be32(timestamp) + payload);
      Be32RoundTrip(timestamp, payload);
      assert (Be32(timestamp) + payload)[4..] == payload;
    case Plain(ch, status, payload) => Sender.FrameDecodes(ch, status, payload);
  }

  lemma KeyLineIsRecord(ch: u32, tokens: seq<u32>)
    requires |tokens| <= TAIL_MAX
    ensures var line := Line(KeyBytesBody(ch, tokens));
            && IsRecord(line) && |line| >= 3 && Short(line) && Parse(line).reply == Init(ch, 0, tokens, [])
  {
    hide Parse, Dec, Tail, Short;
    var body := KeyBytesBody(ch, tokens);
    var line := Line(body);
    KeyBytesRoundTrip(ch, tokens, []);
    assert line + [] == line && tokens[..|tokens|] == tokens;
    TailHasNoCr(tokens);
    DecHasNoCr(ch);
    TailLength(tokens);
    DecLength(ch);
    LineIsRecord(body, []);
    RecordIs(line);
  }

  function SentAll(items: seq<Item>): seq<seq<byte>>
    requires forall i | 0 <= i < |items| :: Sendable(items[i])
  {
    seq(|items|, i requires 0 <= i < |items| => Sent(items[i]))
  }

  function Meanings(items: seq<Item>): seq<Reply>
    requires forall i | 0 <= i < |items| :: Sendable(items[i])
  {
    seq(|items|, i requires 0 <= i < |items| => Meaning(items[i]))
  }

  /** Whatever the cable sends, however it is read: the reader emits exactly the meanings, in order. */
  lemma EverythingArrives(items: seq<Item>, chunks: seq<seq<byte>>)
    requires forall i | 0 <= i < |items| :: Sendable(items[i])
    requires Reads(chunks) && Concat(chunks) == Concat(SentAll(items))
    ensures FeedAll(chunks) == Reader([], Meanings(items))
  {
    hide Parse, IsRecord, Short, Sent, Meaning, FeedAll;
    var recs := SentAll(items);
    forall i | 0 <= i < |items|
      ensures IsRecord(recs[i]) && |recs[i]| >= 3 && Short(recs[i]) && Parse(recs[i]).reply == Meanings(items)[i]
    {
      ItemIsRecord(items[i]);
    }
    WholeStream(recs, chunks);
    assert Decoded(recs) == Meanings(items);
  }

  /** And the session ends up as if each frame had been given to its channel and each reply to the slot. */
  method ReadEverything(session: Device.Session, ghost items: seq<Item>, chunks: seq<seq<byte>>)
    requires session.Valid() && session.accumLen == 0
    requires forall i | 0 <= i < |items| :: Sendable(items[i])
    requires Reads(chunks) && Concat(chunks) == Concat(SentAll(items))
    modifies session, session.accum, session.slot, session.ch, session.Rings()
    ensures session.Valid() && Channels.SaneAll(old(session.Chans()))
    ensures session.accum[..session.accumLen] == []
    ensures session.State() == Device.HandleAll(old(session.Chans()), old(session.slot.Abs()), Meanings(items))
    ensures session.lost == old(session.lost)
  {
    hide FeedAll, Device.HandleAll;
    EverythingArrives(items, chunks);
    var script := seq(|chunks|, i requires 0 <= i < |chunks| => Device.Data(chunks[i]));
    AllDataIsRead(chunks, 0);
    session.ReaderMain(script);
  }

  lemma {:induction false} AllDataIsRead(chunks: seq<seq<byte>>, failures: nat)
    requires Reads(chunks)
    ensures var script := seq(|chunks|, i requires 0 <= i < |chunks| => Device.Data(chunks[i]));
            Device.DataBeforeLoss(script, failures) == chunks && !Device.LosesDevice(script, failures)
    decreases |chunks|
  {
    var script := seq(|chunks|, i requires 0 <= i < |chunks| => Device.Data(chunks[i]));
    if chunks != [] {
      AllDataIsRead(chunks[1..], 0);
      assert script[1..] == seq(|chunks[1..]|, i requires 0 <= i < |chunks[1..]| => Device.Data(chunks[1..][i]));
    }
  }

  /** The cable's printed answer to the command that waits is accepted, and any other is not: a text
      reply of a numbered command is taken exactly when its last token is the command's number. */
  lemma PrintedAnswerIsMatched(s: Slots.Slot, r: Reply, rest: seq<byte>)
    requires s.waiting && !s.valid && s.pending != 0 && !s.AwaitsInit() && Printable(r)
    ensures Slots.Stash(s, Parse(Wire(r) + rest).reply).valid
       <==> !r.Init? && !r.Info? && r.tail != [] && Slots.Last(r.tail) == s.pending
  {
    hide Parse, Wire;
    TextRoundTrip(r, rest);
    Slots.AcceptsItsNumberOnly(s, r);
  }

  // ---- the accumulator's bound is reached ----

  function Spaces(n: nat): seq<byte> { seq(n, _ => SP) }

  lemma {:induction false} SpacesRun(n: nat, rest: seq<byte>)
    requires rest == [] || rest[0] != SP
    ensures SpaceRun(Spaces(n) + rest) == n && (Spaces(n) + rest)[n..] == rest
  {
    if n == 0 {
      assert Spaces(n) + rest == rest;
    } else {
      SpacesRun(n - 1, rest);
      assert (Spaces(n) + rest)[1..] == Spaces(n - 1) + rest;
    }
  }

  /** An `ary0` line with its count of 255 behind `n` spaces. */
  function WideLine(n: nat): seq<byte> { ['y' as int] + (Dec(0) + (Spaces(n) + Dec(255))) }

  lemma WideLineReads(n: nat)
    requires n > 0
    ensures ParseAscii(WideLine(n)) == Init(0, 255, [], []) && CR !in WideLine(n) && |WideLine(n)| == n + 5
  {
    hide Tokens, Dec, ReadNumber, SpaceRun;
    var text := Spaces(n) + Dec(255);
    CountDigits();
    assert WideLine(n)[1..] == Dec(0) + text;
    NumberReads(0, text);
    SpacesRun(n, Dec(255));
    NumberReads(255, []);
    assert Dec(255) + [] == Dec(255);
    NoTokens();
  }

  lemma CountDigits()
    ensures Dec(255) == [50, 53, 53] && Dec(0) == [48]
  {
    assert Dec(25) == [50, 53];
  }

  lemma NoTokens()
    ensures TailOf([]) == []
  {
    TokensStep([]);
  }

  /** Three reads leave REST_BOUND bytes in the accumulator: a line of 256 bytes without its end, a full
      read that ends it, and all but one of the 255 raw bytes it announces. */
  lemma BoundIsReached()
    ensures exists chunks: seq<seq<byte>> :: Reads(chunks) && |FeedAll(chunks).accum| == REST_BOUND
  {
    hide FeedAll, Parse, WideLine, ParseAscii, Dec, Consume;
    var n := LINE_BOUND - 9;
    WideLineReads(n);
    var line := Line(WideLine(n));
    assert |line| == LINE_BOUND;
    var raw: seq<byte> := seq(254, _ => 0);
    var a, b := line[..CMD_MAX * 4], line[CMD_MAX * 4..];
    assert a + b == line;
    WideWaits(n, line, raw);
    NothingFed();
    assert [] + [a] == [a] && [] + a == a;
    FeedWaits([], a);
    FeedWaits([a], b);
    assert [a] + [b] == [a, b];
    FeedWaits([a, b], raw);
    assert [a, b] + [raw] == [a, b, raw];
    assert Reads([a, b, raw]);
  }

  /** None of the three states is decided. */
  lemma WideWaits(n: nat, line: seq<byte>, raw: seq<byte>)
    requires n == LINE_BOUND - 9 && line == Line(WideLine(n)) && |line| == LINE_BOUND && |raw| == 254
    ensures Parse(line[..CMD_MAX * 4]).used == 0 && Parse(line).used == 0 && Parse(line + raw).used == 0
  {
    hide ParseAscii, WideLine;
    var body := WideLine(n);
    WideLineReads(n);
    WideLineStarts(n);
    LineParses(body, raw);
    LineParses(body, []);
    assert line + [] == line && line[2] == body[0] && (line + raw)[2] == body[0];
    var a := line[..CMD_MAX * 4];
    assert forall k | 2 <= k < |a| :: a[k] == body[k - 2] && a[k] != CR;
    assert a[2] == body[0];
    assert LineEnd(a, 2) == |a|;
  }

  lemma WideLineStarts(n: nat)
    ensures WideLine(n)[0] == 'y' as int
  {
  }

  lemma NothingFed()
    ensures FeedAll([]) == Reader([], [])
  {
  }

  lemma FeedWaits(chunks: seq<seq<byte>>, chunk: seq<byte>)
    requires var acc := FeedAll(chunks).accum + chunk; Parse(acc).used == 0 && |acc| < ACCUM_CAP
    ensures FeedAll(chunks + [chunk]).accum == FeedAll(chunks).accum + chunk
  {
    hide Parse;
    assert (chunks + [chunk])[..|chunks|] == chunks;
    assert chunk[..|chunk|] == chunk;
  }
}
