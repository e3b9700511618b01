/** The text replies the cable prints, and the proof that op_parse reads each one back. */
module ReplyText {
  import opened Bytes
  import opened Decimal
  import opened Proto

  /** " <n>" for each token. */
  function Tail(tokens: seq<u32>): seq<byte>
  {
    if tokens == [] then [] else Field(tokens[0], Tail(tokens[1..]))
  }

  /** " <n>" in front of `rest`. */
  function Field(n: nat, rest: seq<byte>): seq<byte>
  {
    [SP] + Dec(n) + rest
  }

  /** What follows the verb letter. */
  function Fields(r: Reply): seq<byte>
    requires Printable(r)
  {
    match r
    case Ok(tail) => Tail(tail)
    case Error(code, _, _, tail) => Field(code, Tail(tail))
    case Info(text) => [SP] + text
    case Pin(pin, mv, tail) => Field(pin, Field(mv, Tail(tail)))
    case Filter(ch, id, tail) => Dec(ch) + Field(id, Tail(tail))
    case Periodic(ch, id, tail) => Dec(ch) + Field(id, Tail(tail))
    case Config(ch, param, value, tail) => Dec(ch) + Field(param, Field(value, Tail(tail)))
    case Init(ch, count, tail, _) => Dec(ch) + Field(count, Tail(tail))
  }

  function Verb(r: Reply): byte
    requires Printable(r)
  {
    match r
    case Ok(_) => 'o' as int
    case Error(_, _, _, _) => 'e' as int
    case Info(_) => 'i' as int
    case Pin(_, _, _) => 'r' as int
    case Filter(_, _, _) => 'f' as int
    case Periodic(_, _, _) => 'm' as int
    case Config(_, _, _, _) => 'g' as int
    case Init(_, _, _, _) => 'y' as int
  }

  /** The line between "ar" and CR LF. `ary` carries its bytes behind the line. */
  function Body(r: Reply): seq<byte>
    requires Printable(r)
  {
    [Verb(r)] + Fields(r)
  }

  /** A reply with a text form: at most eight trailing tokens, and an `are` whose detail, before
      the device layer knows about numbering, is its first trailing token. */
  predicate Printable(r: Reply)
  {
    match r
    case Incomplete => false
    case Junk => false
    case Frame(_, _, _, _) => false
    case Error(_, has, detail, tail) =>
      |tail| <= TAIL_MAX && has == (tail != []) && detail == (if has then tail[0] else 0)
    case Info(text) => (text == [] || text[0] != SP) && CR !in text
    case Init(_, count, tail, data) => |tail| <= TAIL_MAX && count == |data| <= 255
    case _ => |r.Tail()| <= TAIL_MAX
  }

  /** The wire form of a line. */
  function Line(body: seq<byte>): seq<byte>
  {
    ['a' as int, 'r' as int] + body + [CR, LF]
  }

  function Wire(r: Reply): seq<byte>
    requires Printable(r)
  {
    Line(Body(r)) + if r.Init? then r.data else []
  }

  /** The line of an `arw` reply: a channel and any number of tokens, for key bytes and a number behind them. */
  function KeyBytesBody(ch: u32, tokens: seq<u32>): seq<byte>
  {
    ['w' as int] + (Dec(ch) + Tail(tokens))
  }

  predicate Ends(rest: seq<byte>) { rest == [] || !IsDigit(rest[0]) }

  /** A printed number reads back, saturated. */
  lemma NumberReads(n: nat, rest: seq<byte>)
    requires Ends(rest)
    ensures ReadNumber(Dec(n) + rest) == Number(Min(n, U32_MAX), rest)
  {
    PrintedNumber(n, rest);
  }

  lemma FieldReads(n: nat, rest: seq<byte>)
    requires Ends(rest)
    ensures ReadField(Field(n, rest)) == Number(Min(n, U32_MAX), rest)
  {
    hide Dec, Value, DigitRun, SpaceRun, ReadNumber;
    DecDenotes(n);
    var s := Field(n, rest);
    assert IsDigit(Dec(n)[0]) && s[1] == Dec(n)[0];
    assert SpaceRun(s) == 1;
    assert s[1..] == Dec(n) + rest;
    NumberReads(n, rest);
  }

  lemma {:induction false} TailReads(tokens: seq<u32>)
    ensures Tokens(Tail(tokens)) == tokens
  {
    hide Field, ReadField;
    if tokens != [] {
      TailEnds(tokens[1..]);
      FieldReads(tokens[0], Tail(tokens[1..]));
      TailReads(tokens[1..]);
    } else {
      TokensStep([]);
    }
  }

  lemma TailStored(tokens: seq<u32>)
    ensures TailOf(Tail(tokens)) == tokens[..Min(|tokens|, TAIL_MAX)]
  {
    TailReads(tokens);
  }

  lemma TailEnds(tokens: seq<u32>)
    ensures Ends(Tail(tokens))
  {
  }

  lemma PairReads(ch: nat, v: nat, rest: seq<byte>)
    requires Ends(rest)
    ensures ReadChannelValue(Dec(ch) + Field(v, rest)) == ChannelValue(Min(ch, U32_MAX), Min(v, U32_MAX), rest)
  {
    hide ReadNumber, ReadField, Dec;
    NumberReads(ch, Field(v, rest));
    FieldReads(v, rest);
  }

  /** The line of every text reply decodes to the reply's fields. */
  lemma BodyReads(r: Reply)
    requires Printable(r)
    ensures ParseAscii(Body(r)) == if r.Init? then Init(r.channel, r.a, r.tail, []) else r
  {
    hide Dec, Tail, Field, ReadField, ReadNumber, ReadChannelValue, TailOf, SpaceRun;
    assert Body(r)[1..] == Fields(r);
    if r.Info? {
      InfoReads(r.text);
    } else {
      var tail := r.tail;
      TailStored(tail);
      TailEnds(tail);
      assert tail[..Min(|tail|, TAIL_MAX)] == tail;
      match r
      case Ok(_) =>
      case Error(code, _, _, _) =>
        FieldReads(code, Tail(tail));
      case Pin(pin, mv, _) =>
        FieldReads(mv, Tail(tail));
        FieldEnds(mv, Tail(tail));
        FieldReads(pin, Field(mv, Tail(tail)));
      case Config(ch, param, value, _) =>
        FieldReads(value, Tail(tail));
        FieldEnds(value, Tail(tail));
        PairReads(ch, param, Field(value, Tail(tail)));
      case Filter(ch, id, _) => PairReads(ch, id, Tail(tail));
      case Periodic(ch, id, _) => PairReads(ch, id, Tail(tail));
      case Init(ch, count, _, _) => PairReads(ch, count, Tail(tail));
    }
  }

  lemma FieldEnds(n: nat, rest: seq<byte>)
    ensures Ends(Field(n, rest))
  {
  }

  lemma InfoReads(text: seq<byte>)
    requires text == [] || text[0] != SP
    ensures ParseVerb('i' as int, [SP] + text) == Info(text)
  {
    hide SpaceRun;
    var s := [SP] + text;
    assert text != [] ==> s[1] == text[0];
    assert SpaceRun(s) == 1;
    assert s[1..] == text;
  }

  lemma KeyBytesRead(ch: u32, tokens: seq<u32>)
    ensures ParseAscii(KeyBytesBody(ch, tokens))
         == Init(ch, 0, tokens[..Min(|tokens|, TAIL_MAX)], [])
  {
    hide Dec, Tail, TailOf, ReadNumber;
    assert KeyBytesBody(ch, tokens)[1..] == Dec(ch) + Tail(tokens);
    TailEnds(tokens);
    TailStored(tokens);
    NumberReads(ch, Tail(tokens));
  }

  // ---- from line to wire ----

  lemma DecHasNoCr(n: nat)
    ensures CR !in Dec(n)
  {
    DecDenotes(n);
    forall i | 0 <= i < |Dec(n)| ensures Dec(n)[i] != CR { assert IsDigit(Dec(n)[i]); }
  }

  lemma {:induction false} TailHasNoCr(tokens: seq<u32>)
    ensures CR !in Tail(tokens)
  {
    if tokens != [] {
      DecHasNoCr(tokens[0]);
      TailHasNoCr(tokens[1..]);
    }
  }

  lemma BodyShape(r: Reply)
    requires Printable(r)
    ensures Body(r) != [] && CR !in Body(r) && !IsDigit(Body(r)[0])
    ensures Body(r)[0] == 'y' as int <==> r.Init?
  {
    hide Dec, Tail;
    if !r.Info? { TailHasNoCr(r.tail); }
    match r
    case Error(code, _, _, _) => DecHasNoCr(code);
    case Pin(pin, mv, _) => DecHasNoCr(pin); DecHasNoCr(mv);
    case Filter(ch, id, _) => DecHasNoCr(ch); DecHasNoCr(id);
    case Periodic(ch, id, _) => DecHasNoCr(ch); DecHasNoCr(id);
    case Config(ch, param, value, _) => DecHasNoCr(ch); DecHasNoCr(param); DecHasNoCr(value);
    case Init(ch, count, _, _) => DecHasNoCr(ch); DecHasNoCr(count);
    case _ =>
  }

  /** A line ends where its body does. */
  lemma LineEndsAt(body: seq<byte>, rest: seq<byte>)
    requires CR !in body
    ensures LineEnd(Line(body) + rest, 2) == 2 + |body|
  {
    var buf := Line(body) + rest;
    assert forall k | 2 <= k < 2 + |body| :: buf[k] == body[k - 2] && buf[k] != CR;
    assert IsCrLf(buf, 2 + |body|);
  }

  /** Parsing the line of `body` is decoding `body`. */
  lemma LineParses(body: seq<byte>, rest: seq<byte>)
    requires body != [] && CR !in body && !IsDigit(body[0])
    ensures Parse(Line(body) + rest) == Complete(ParseAscii(body), Line(body) + rest, 2 + |body|)
  {
    hide ParseAscii, Complete;
    var buf := Line(body) + rest;
    LineEndsAt(body, rest);
    assert buf[2..2 + |body|] == body;
    assert buf[2] == body[0];
  }

  /** Printing any text reply and parsing it, with anything behind it, returns the same fields. */
  lemma TextRoundTrip(r: Reply, rest: seq<byte>)
    requires Printable(r)
    ensures Parse(Wire(r) + rest) == Parsed(|Wire(r)|, r)
  {
    hide ParseAscii, Body, Parse;
    var body := Body(r);
    BodyReads(r);
    BodyShape(r);
    var more := (if r.Init? then r.data else []) + rest;
    LineParses(body, more);
    var buf := Line(body) + more;
    assert Wire(r) + rest == buf;
    assert buf[2] == body[0];
    if r.Init? {
      assert buf[|Line(body)|..|Line(body)| + |r.data|] == r.data;
    }
  }

  /** An `arw` line yields its tokens, as many of them as op_reply stores. */
  lemma KeyBytesRoundTrip(ch: u32, tokens: seq<u32>, rest: seq<byte>)
    ensures Parse(Line(KeyBytesBody(ch, tokens)) + rest)
         == Parsed(|Line(KeyBytesBody(ch, tokens))|, Init(ch, 0, tokens[..Min(|tokens|, TAIL_MAX)], []))
  {
    hide ParseAscii, Parse, Dec, Tail;
    var body := KeyBytesBody(ch, tokens);
    TailHasNoCr(tokens);
    DecHasNoCr(ch);
    KeyBytesRead(ch, tokens);
    LineParses(body, rest);
    assert (Line(body) + rest)[2] == 'w' as int;
  }

  /** `arm<ch> <id> <seq>`, the id of any size: the cable's ids have no bound, the driver's 32 bits. */
  function PeriodicBody(ch: nat, id: nat, tokens: seq<u32>): seq<byte>
  {
    ['m' as int] + (Dec(ch) + Field(id, Tail(tokens)))
  }

  lemma PeriodicLineReads(ch: nat, id: nat, tokens: seq<u32>, rest: seq<byte>)
    requires |tokens| <= TAIL_MAX
    ensures Parse(Line(PeriodicBody(ch, id, tokens)) + rest)
         == Parsed(|Line(PeriodicBody(ch, id, tokens))|, Periodic(Min(ch, U32_MAX), Min(id, U32_MAX), tokens))
  {
    hide Dec, Tail, TailOf, ReadChannelValue, Parse, ParseVerb;
    var body := PeriodicBody(ch, id, tokens);
    TailHasNoCr(tokens);
    DecHasNoCr(ch);
    DecHasNoCr(id);
    LineParses(body, rest);
    TailEnds(tokens);
    TailStored(tokens);
    assert tokens[..Min(|tokens|, TAIL_MAX)] == tokens;
    PairReads(ch, id, Tail(tokens));
    assert body[1..] == Dec(ch) + Field(id, Tail(tokens));
    PeriodicVerb(body[1..]);
    assert (Line(body) + rest)[2] == 'm' as int;
  }

  lemma PeriodicVerb(s: seq<byte>)
    requires ReadChannelValue(s).ChannelValue?
    ensures var p := ReadChannelValue(s);
            ParseVerb('m' as int, s) == Periodic(p.channel, p.value, TailOf(p.rest))
  {
  }
}
