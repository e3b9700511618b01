/** The reply half of the wire codec: one pipe that carries text replies, `ary` replies with raw
    bytes behind their line, and length-prefixed binary frames. */
module Proto {
  import opened Bytes
  import opened Decimal

  const STS_START: nat := 0x80
  const STS_END: nat := 0x40
  const STS_LOOPBACK: nat := 0x20
  const STS_TX_IND: nat := 0x10
  const STS_EXT_ADDR: nat := 0x04
  const STS_29BIT: nat := 0x02

  const CMD_MAX: nat := 64
  const FRAME_MAX: nat := 4 + 255
  const MSG_MAX: nat := 4128
  const TAIL_MAX: nat := 8

  /** What op_parse reports. `tail` holds the numeric tokens after the fixed fields. */
  datatype Reply =
    | Incomplete
    | Junk
    | Ok(tail: seq<u32>)
    | Error(code: u32, hasDetail: bool, detail: u32, tail: seq<u32>)
    | Info(text: seq<byte>)
    | Pin(a: u32, b: u32, tail: seq<u32>)
    | Filter(channel: u32, a: u32, tail: seq<u32>)
    | Config(channel: u32, a: u32, b: u32, tail: seq<u32>)
    | Periodic(channel: u32, a: u32, tail: seq<u32>)
    | Init(channel: u32, a: u32, tail: seq<u32>, data: seq<byte>)
    | Frame(channel: u32, status: byte, timestamp: u32, data: seq<byte>)
  {
    function Tail(): seq<u32> {
      if Incomplete? || Junk? || Info? || Frame? then [] else tail
    }
  }

  /** A result of op_parse: bytes consumed and what they were. */
  datatype Parsed = Parsed(used: nat, reply: Reply)

  /** A number at the front of a text, or its absence. */
  datatype Number = NoNumber | Number(value: u32, rest: seq<byte>)

  function ReadNumber(s: seq<byte>): (n: Number)
    ensures n.Number? ==> |n.rest| < |s|
  {
    var used := DigitRun(s);
    if used == 0 then NoNumber else Number(Saturated(s), s[used..])
  }

  function ReadField(s: seq<byte>): (n: Number)
    ensures n.Number? ==> |n.rest| < |s|
  {
    ReadNumber(s[SpaceRun(s)..])
  }

  /** Every numeric token at the front of `s`. */
  function Tokens(s: seq<byte>): seq<u32>
    decreases |s|
  {
    var n := ReadField(s);
    if n.NoNumber? then [] else [n.value] + Tokens(n.rest)
  }

  /** The tokens op_reply has room for. */
  function TailOf(s: seq<byte>): seq<u32>
  {
    Tokens(s)[..Min(|Tokens(s)|, TAIL_MAX)]
  }

  lemma TokensStep(s: seq<byte>)
    ensures var t := s[SpaceRun(s)..]; var n := DigitRun(t);
            Tokens(s) == if n == 0 then [] else [Saturated(t)] + Tokens(t[n..])
  {
  }

  /** parse_tail: tokens past the eighth are read but not stored. */
  method ParseTail(s: seq<byte>) returns (tail: seq<u32>)
    ensures tail == TailOf(s)
  {
    hide Tokens;
    tail := [];
    ghost var left := Tokens(s);
    var rest := s;
    while true
      invariant left == Tokens(rest)
      invariant |tail| <= TAIL_MAX && TailOf(s) == tail + left[..Min(|left|, TAIL_MAX - |tail|)]
      decreases |rest|
    {
      TokensStep(rest);
      var spaces := SkipSpaces(rest);
      var used, v := ParseU32(rest[spaces..]);
      if used == 0 { return; }
      rest := rest[spaces..][used..];
      left := left[1..];
      if |tail| < TAIL_MAX { tail := tail + [v]; }
    }
  }

  /** A `<ch> <value>` pair fused to the verb, as `arf`, `arm`, `arg` and `ary` begin. */
  datatype ChannelValue = NoPair | ChannelValue(channel: u32, value: u32, rest: seq<byte>)

  function ReadChannelValue(s: seq<byte>): ChannelValue
  {
    var ch := ReadNumber(s);
    if ch.NoNumber? then NoPair else
    var v := ReadField(ch.rest);
    if v.NoNumber? then NoPair else ChannelValue(ch.value, v.value, v.rest)
  }

  /** parse_ascii: `body` is the line between "ar" and its CR LF. */
  function ParseAscii(body: seq<byte>): (r: Reply)
    ensures !r.Incomplete? && !r.Frame? && (r.Init? ==> r.a <= 255 && r.data == [])
  {
    if body == [] then Junk else ParseVerb(body[0], body[1..])
  }

  /** The switch on the verb: `s` is what follows it. */
  function ParseVerb(verb: byte, s: seq<byte>): (r: Reply)
    ensures !r.Incomplete? && !r.Frame? && (r.Init? ==> r.a <= 255 && r.data == [])
  {
    if verb == 'o' as int then Ok(TailOf(s))
    else if verb == 'e' as int then
      var code := ReadField(s);
      if code.NoNumber? then Junk else
      var tail := TailOf(code.rest);
      Error(code.value, tail != [], if tail != [] then tail[0] else 0, tail)
    else if verb == 'i' as int then Info(s[SpaceRun(s)..])
    else if verb == 'r' as int then
      var pin := ReadField(s);
      if pin.NoNumber? then Junk else
      var mv := ReadField(pin.rest);
      if mv.NoNumber? then Junk else Pin(pin.value, mv.value, TailOf(mv.rest))
    else if verb == 'm' as int then
      var p := ReadChannelValue(s);
      if p.NoPair? then Junk else Periodic(p.channel, p.value, TailOf(p.rest))
    else if verb == 'f' as int then
      var p := ReadChannelValue(s);
      if p.NoPair? then Junk else Filter(p.channel, p.value, TailOf(p.rest))
    else if verb == 'g' as int then
      var p := ReadChannelValue(s);
      if p.NoPair? then Junk else
      var v := ReadField(p.rest);
      if v.NoNumber? then Junk else Config(p.channel, p.value, v.value, TailOf(v.rest))
    else if verb == 'y' as int then
      var p := ReadChannelValue(s);
      if p.NoPair? || p.value > 255 then Junk else Init(p.channel, p.value, TailOf(p.rest), [])
    else if verb == 'w' as int then
      var ch := ReadNumber(s);
      if ch.NoNumber? then Junk else Init(ch.value, 0, TailOf(ch.rest), [])
    else Junk
  }

  /** The tokens kept behind the first `n`. */
  function TailFrom(tokens: seq<u32>, n: nat): seq<u32>
    requires n <= |tokens|
  {
    tokens[n..][..Min(|tokens| - n, TAIL_MAX)]
  }

  /** The verbs with a channel, its digits fused to the letter, and those without. */
  const CHANNEL_VERBS: set<char> := {'m', 'f', 'g', 'y', 'w'}
  const DEVICE_VERBS: set<char> := {'o', 'e', 'i', 'r'}

  /** How many numbers a line of the verb begins with. */
  function Needs(verb: char): nat
  {
    if verb == 'g' then 3
    else if verb in {'r', 'm', 'f', 'y'} then 2
    else if verb in {'e', 'w'} then 1
    else 0
  }

  /** Exactly which lines are junk: those of an unknown verb, those with too few numbers or without the channel at
      the verb, and an `ary` of more than 255 bytes. */
  lemma JunkLines(verb: char, s: seq<byte>)
    requires verb as int < 0x100
    ensures ParseAscii([verb as int] + s).Junk?
       <==> || (verb !in CHANNEL_VERBS && verb !in DEVICE_VERBS)
            || (verb != 'i' && |Tokens(s)| < Needs(verb))
            || (verb in CHANNEL_VERBS && (s == [] || !IsDigit(s[0])))
            || (verb == 'y' && Tokens(s)[1] > 255)
  {
    hide ReadNumber, ReadField, Tokens, TailOf, SpaceRun;
    assert ([verb as int] + s)[1..] == s;
    FusedNumber(s);
    TokensUnfold(s);
    if ReadField(s).Number? {
      TokensUnfold(ReadField(s).rest);
      if ReadField(ReadField(s).rest).Number? { TokensUnfold(ReadField(ReadField(s).rest).rest); }
    }
  }

  /** And what the others say: the line's numbers in their order, the first to the reply's own fields, the next
      eight to its tail. */
  lemma LineFields(verb: char, s: seq<byte>)
    requires verb as int < 0x100 && !ParseAscii([verb as int] + s).Junk?
    ensures var t := Tokens(s);
            var n := Needs(verb);
            && (verb == 'i' || n <= |t|)
            && ParseAscii([verb as int] + s) ==
               (match verb
                case 'o' => Ok(TailFrom(t, 0))
                case 'e' => var tail := TailFrom(t, 1); Error(t[0], |t| > 1, if |t| > 1 then t[1] else 0, tail)
                case 'i' => Info(s[SpaceRun(s)..])
                case 'r' => Pin(t[0], t[1], TailFrom(t, 2))
                case 'm' => Periodic(t[0], t[1], TailFrom(t, 2))
                case 'f' => Filter(t[0], t[1], TailFrom(t, 2))
                case 'g' => Config(t[0], t[1], t[2], TailFrom(t, 3))
                case 'y' => Init(t[0], t[1], TailFrom(t, 2), [])
                case _ => Init(t[0], 0, TailFrom(t, 1), []))
  {
    hide ReadNumber, ReadField, Tokens, SpaceRun;
    JunkLines(verb, s);
    assert ([verb as int] + s)[1..] == s;
    FusedNumber(s);
    TokensUnfold(s);
    if ReadField(s).Number? {
      TokensUnfold(ReadField(s).rest);
      if ReadField(ReadField(s).rest).Number? { TokensUnfold(ReadField(ReadField(s).rest).rest); }
    }
  }

  lemma FusedNumber(s: seq<byte>)
    ensures ReadNumber(s) == if s != [] && IsDigit(s[0]) then ReadField(s) else NoNumber
  {
  }

  lemma TokensUnfold(s: seq<byte>)
    ensures var n := ReadField(s);
            if n.NoNumber? then Tokens(s) == []
            else Tokens(s) == [n.value] + Tokens(n.rest) && Tokens(s)[0] == n.value && Tokens(s)[1..] == Tokens(n.rest)
  {
    hide ReadField;
  }

  /** Whether a frame body begins with the 4-byte timestamp. */
  predicate FrameHasTimestamp(channel: nat, status: byte, bodyLen: nat)
  {
    if channel == 5 || channel == 6 then bodyLen >= 4
    else (HasBit(status, STS_START) || HasBit(status, STS_END)) && bodyLen == 4
  }

  predicate IsCrLf(buf: seq<byte>, i: nat) { i + 1 < |buf| && buf[i] == CR && buf[i + 1] == LF }

  /** Where the first CR LF at or after `i` begins, or |buf| when there is none. */
  function LineEnd(buf: seq<byte>, i: nat): (e: nat)
    ensures forall k | i <= k < e :: !IsCrLf(buf, k)
    ensures e == |buf| || (i <= e && IsCrLf(buf, e))
    decreases |buf| - i
  {
    if i + 1 >= |buf| then |buf| else if IsCrLf(buf, i) then i else LineEnd(buf, i + 1)
  }

  /** Bytes of the frame at the front of `buf`, by its length field. */
  function FrameNeed(buf: seq<byte>): nat
    requires |buf| >= 4
  {
    4 + buf[3] as int
  }

  function ParseFrame(buf: seq<byte>): (p: Parsed)
    requires |buf| >= 3 && IsDigit(buf[2])
    ensures p.used <= |buf|
  {
    if |buf| < 4 || |buf| < FrameNeed(buf) then Parsed(0, Incomplete)
    else if buf[3] < 1 then Parsed(4, Junk)
    else Parsed(FrameNeed(buf), DecodeFrame(buf[..FrameNeed(buf)]))
  }

  /** A whole frame: 'a' 'r' <digit> <len> <status> [<timestamp>] <data>. */
  function DecodeFrame(f: seq<byte>): Reply
    requires |f| >= 5 && IsDigit(f[2])
  {
    var channel, status := f[2] - '0' as int, f[4];
    if FrameHasTimestamp(channel, status, |f| - 5)
    then Frame(channel, status, ReadBe32(f[5..]), f[9..])
    else Frame(channel, status, 0, f[5..])
  }

  /** What a decoded line terminated at `e` yields: `ary` waits for the raw bytes behind it. */
  function Complete(r: Reply, buf: seq<byte>, e: nat): (p: Parsed)
    requires 2 <= e && e + 2 <= |buf|
    ensures p.used <= |buf|
  {
    if r.Init? && buf[2] == 'y' as int then
      if |buf| < e + 2 + r.a then Parsed(0, Incomplete)
      else Parsed(e + 2 + r.a, Init(r.channel, r.a, r.tail, buf[e + 2..e + 2 + r.a]))
    else Parsed(e + 2, r)
  }

  function ParseLine(buf: seq<byte>): (p: Parsed)
    requires |buf| >= 3
    ensures p.used <= |buf|
  {
    var e := LineEnd(buf, 2);
    if e < |buf| then Complete(ParseAscii(buf[2..e]), buf, e)
    else if |buf| > CMD_MAX * 4 then Parsed(1, Junk) else Parsed(0, Incomplete)
  }

  /** op_parse: decode the first reply in `buf`. */
  function Parse(buf: seq<byte>): (p: Parsed)
    ensures p.used <= |buf|
  {
    if buf == [] then Parsed(0, Incomplete)
    else if buf[0] != 'a' as int then Parsed(1, Junk)
    else if |buf| < 2 then Parsed(0, Incomplete)
    else if buf[1] != 'r' as int then Parsed(1, Junk)
    else if |buf| < 3 then Parsed(0, Incomplete)
    else if IsDigit(buf[2]) then ParseFrame(buf)
    else ParseLine(buf)
  }

  /** The scan for a line's terminator. */
  method FindLineEnd(buf: seq<byte>) returns (e: nat)
    requires |buf| >= 2
    ensures e == LineEnd(buf, 2)
  {
    e := 2;
    while e + 1 < |buf|
      invariant 2 <= e && LineEnd(buf, e) == LineEnd(buf, 2)
    {
      if buf[e] == CR && buf[e + 1] == LF { return; }
      e := e + 1;
    }
    e := |buf|;
  }

  /** op_parse as it runs. */
  method OpParse(buf: seq<byte>) returns (p: Parsed)
    ensures p == Parse(buf)
  {
    if buf == [] { return Parsed(0, Incomplete); }
    if buf[0] != 'a' as int { return Parsed(1, Junk); }
    if |buf| < 2 { return Parsed(0, Incomplete); }
    if buf[1] != 'r' as int { return Parsed(1, Junk); }
    if |buf| < 3 { return Parsed(0, Incomplete); }
    if IsDigit(buf[2]) { return ParseFrame(buf); }
    var e := FindLineEnd(buf);
    if e < |buf| { return Complete(ParseAscii(buf[2..e]), buf, e); }
    if |buf| > CMD_MAX * 4 { return Parsed(1, Junk); }
    return Parsed(0, Incomplete);
  }

  /** Bytes are consumed exactly when something was decided. */
  lemma ConsumesIffDecided(buf: seq<byte>)
    ensures Parse(buf).used == 0 <==> Parse(buf).reply.Incomplete?
  {
    hide ParseAscii;
  }

  lemma {:induction false} LineEndStable(a: seq<byte>, b: seq<byte>, i: nat)
    ensures LineEnd(a, i) < |a| ==> LineEnd(a + b, i) == LineEnd(a, i)
    decreases |a| - i
  {
    if i + 1 < |a| {
      assert (a + b)[i] == a[i] && (a + b)[i + 1] == a[i + 1];
      if !IsCrLf(a, i) { LineEndStable(a, b, i + 1); }
    }
  }

  /** What was decoded once is decoded the same however many bytes arrive behind it. */
  lemma ParseStable(a: seq<byte>, b: seq<byte>)
    requires Parse(a).used > 0 && !Parse(a).reply.Junk?
    ensures Parse(a + b) == Parse(a)
  {
    assert forall i | 0 <= i < |a| :: (a + b)[i] == a[i];
    if IsDigit(a[2]) {
      assert (a + b)[..FrameNeed(a)] == a[..FrameNeed(a)];
    } else {
      LineEndStable(a, b, 2);
      var e := LineEnd(a, 2);
      assert (a + b)[2..e] == a[2..e];
      CompleteStable(ParseAscii(a[2..e]), a, b, e);
    }
  }

  lemma CompleteStable(r: Reply, a: seq<byte>, b: seq<byte>, e: nat)
    requires 2 <= e && e + 2 <= |a| && Complete(r, a, e).used > 0
    ensures Complete(r, a + b, e) == Complete(r, a, e)
  {
    if r.Init? && a[2] == 'y' as int {
      assert (a + b)[e + 2..e + 2 + r.a] == a[e + 2..e + 2 + r.a];
    }
  }

  /** The letters and digits op_resync_offset takes for the start of a reply. */
  predicate IsReplyMark(c: byte)
  {
    IsDigit(c) || c == 'o' as int || c == 'e' as int || c == 'i' as int || c == 'r' as int ||
    c == 'f' as int || c == 'g' as int || c == 'y' as int || c == 'w' as int || c == 'm' as int
  }

  predicate IsBoundary(buf: seq<byte>, i: nat)
  {
    i + 2 < |buf| && buf[i] == 'a' as int && buf[i + 1] == 'r' as int && IsReplyMark(buf[i + 2])
  }

  function ResyncFrom(buf: seq<byte>, i: nat): (n: nat)
    ensures n == |buf| || (i <= n && IsBoundary(buf, n))
    ensures forall k | i <= k < n :: !IsBoundary(buf, k)
    decreases |buf| - i
  {
    if i + 2 >= |buf| then |buf| else if IsBoundary(buf, i) then i else ResyncFrom(buf, i + 1)
  }

  /** op_resync_offset. */
  function ResyncOffset(buf: seq<byte>): nat { ResyncFrom(buf, 1) }

  /** No reply is stepped over once three bytes of it have come: where bytes that are, or with more behind them will
      be, a reply begin, the scan stops. */
  lemma ResyncKeepsReplies(buf: seq<byte>, k: nat, more: seq<byte>)
    requires 1 <= k && k + 2 < |buf|
    requires Parse(buf[k..] + more).used > 0 && !Parse(buf[k..] + more).reply.Junk?
    ensures ResyncOffset(buf) <= k
  {
    var s := buf[k..] + more;
    assert s[0] == buf[k] && s[1] == buf[k + 1] && s[2] == buf[k + 2];
    if !IsDigit(s[2]) {
      hide ParseVerb;
      var e := LineEnd(s, 2);
      assert s[2..e][0] == s[2];
      VerbsAreMarks(s[2], s[2..e][1..]);
    }
    assert IsBoundary(buf, k);
  }

  lemma VerbsAreMarks(verb: byte, s: seq<byte>)
    ensures !ParseVerb(verb, s).Junk? ==> IsReplyMark(verb)
  {
    hide Tokens, ReadNumber;
  }

  method OpResyncOffset(buf: seq<byte>) returns (n: nat)
    ensures n == ResyncOffset(buf)
    ensures |buf| > 0 ==> 1 <= n <= |buf|
    ensures n < |buf| ==> IsBoundary(buf, n)
    ensures forall k | 1 <= k < n :: !IsBoundary(buf, k)
  {
    if |buf| < 3 { return |buf|; }
    var i := 1;
    while i + 2 < |buf|
      invariant 1 <= i && ResyncFrom(buf, i) == ResyncOffset(buf)
    {
      if buf[i] == 'a' as int && buf[i + 1] == 'r' as int && IsReplyMark(buf[i + 2]) { return i; }
      i := i + 1;
    }
    return |buf|;
  }
}
