/** The cable's end of the command stream: bytes back into lines and payloads. */
module Splitter {
  import opened Bytes
  import opened Decimal
  import opened Commands

  /** Python's ASCII whitespace. */
  predicate IsSpace(c: byte) { 9 <= c <= 13 || 28 <= c <= 32 }

  /** A non-empty ASCII argument without whitespace. */
  predicate IsWord(w: seq<byte>)
  {
    w != [] && forall i | 0 <= i < |w| :: !IsSpace(w[i]) && w[i] < 128
  }

  function WordRun(s: seq<byte>): (n: nat)
    ensures n <= |s| && (forall i | 0 <= i < n :: !IsSpace(s[i])) && (n < |s| ==> IsSpace(s[n]))
  {
    if s == [] || IsSpace(s[0]) then 0 else 1 + WordRun(s[1..])
  }

  /** split(). */
  function Words(s: seq<byte>): seq<seq<byte>>
    decreases |s|
  {
    if s == [] then []
    else if IsSpace(s[0]) then Words(s[1..])
    else [s[..WordRun(s)]] + Words(s[WordRun(s)..])
  }

  /** strip(). */
  function Strip(s: seq<byte>): seq<byte>
  {
    if s == [] then []
    else if IsSpace(s[0]) then Strip(s[1..])
    else if IsSpace(s[|s| - 1]) then Strip(s[..|s| - 1])
    else s
  }

  /** int(), for an optional sign and digits; anything else is a ValueError. */
  datatype PyInt = ValueError | Int(value: int)

  function ParseInt(w: seq<byte>): PyInt
  {
    var signed := w != [] && (w[0] == '-' as int || w[0] == '+' as int);
    var ds := if signed then w[1..] else w;
    if ds == [] || !AllDigits(ds) then ValueError
    else Int(if signed && w[0] == '-' as int then -(Value(ds) as int) else Value(ds))
  }

  predicate IsAscii(s: seq<byte>) { forall i | 0 <= i < |s| :: s[i] < 128 }

  /** _declared_payload: how many raw bytes follow this line. */
  function DeclaredPayload(line: seq<byte>): int
  {
    if !IsAscii(line) then 0 else
    var s := Strip(line);
    if |s| < 3 || s[0] != 'a' as int || s[1] != 't' as int then 0 else
    var rest := s[3..];
    Declared(s[2], Words(rest[DigitRun(rest)..]))
  }

  /** How many messages follow a filter command of each type. */
  const FILTER_MESSAGES: map<int, nat> := map[1 := 2, 2 := 2, 3 := 3]

  function MessagesOf(kind: int): nat { if kind in FILTER_MESSAGES then FILTER_MESSAGES[kind] else 0 }

  /** By verb and arguments. */
  function Declared(verb: byte, args: seq<seq<byte>>): int
  {
    if verb in {'t' as int, 'y' as int, 'p' as int} && |args| >= 1 then IntOr0(args[0])
    else if verb == 'm' as int && |args| >= 4 then IntOr0(args[3])
    else if verb == 'f' as int && |args| >= 3 then
      (if ParseInt(args[0]).ValueError? || ParseInt(args[2]).ValueError? then 0
       else MessagesOf(ParseInt(args[0]).value) * ParseInt(args[2]).value)
    else 0
  }

  function IntOr0(w: seq<byte>): int
  {
    if ParseInt(w).ValueError? then 0 else ParseInt(w).value
  }

  // ---- the loop ----

  /** A line and its payload, as handle() gets them. */
  datatype Request = Request(line: seq<byte>, payload: seq<byte>)

  /** The loop's variables, and the requests handled so far. */
  datatype Splitting = Splitting(line: seq<byte>, pend: seq<byte>, want: int, handled: seq<Request>)

  /** One byte through the loop of serve(). */
  function ServeByte(s: Splitting, b: byte): Splitting
  {
    if s.want != 0 then
      if s.want == 1 then Splitting([], [], 0, s.handled + [Request(s.line, s.pend + [b])])
      else s.(pend := s.pend + [b], want := s.want - 1)
    else if b == LF then
      var want := DeclaredPayload(s.line);
      if want == 0 then s.(line := [], want := 0, handled := s.handled + [Request(s.line, [])])
      else s.(pend := [], want := want)
    else if b != CR then s.(line := s.line + [b])
    else s
  }

  function Serve(s: Splitting, data: seq<byte>): Splitting
  {
    if data == [] then s else ServeByte(Serve(s, data[..|data| - 1]), data[|data| - 1])
  }

  /** serve()'s inner loop over what one read returned. */
  class Server {
    var line: seq<byte>
    var pend: seq<byte>
    var want: int
    var handled: seq<Request>

    constructor ()
      ensures Abs() == Splitting([], [], 0, [])
    {
      line, pend, want, handled := [], [], 0, [];
    }

    function Abs(): Splitting
      reads this
    {
      Splitting(line, pend, want, handled)
    }

    method TakeRead(data: seq<byte>)
      modifies this
      ensures Abs() == Serve(old(Abs()), data)
    {
      hide DeclaredPayload;
      var i := 0;
      while i < |data|
        invariant i <= |data| && Abs() == Serve(old(Abs()), data[..i])
      {
        var b := data[i];
        assert data[..i + 1][..i] == data[..i];
        i := i + 1;
        if want != 0 {
          pend := pend + [b];
          want := want - 1;
          if want == 0 {
            handled := handled + [Request(line, pend)];
            line, pend := [], [];
          }
          continue;
        }
        if b == LF {
          want := DeclaredPayload(line);
          if want == 0 {
            handled := handled + [Request(line, [])];
            line := [];
          } else {
            pend := [];
          }
          continue;
        }
        if b != CR { line := line + [b]; }
      }
      assert data[..|data|] == data;
    }
  }

  lemma {:induction false} ServeAppends(s: Splitting, a: seq<byte>, b: seq<byte>)
    ensures Serve(s, a + b) == Serve(Serve(s, a), b)
  {
    hide ServeByte;
    if b == [] {
      assert a + b == a;
    } else {
      ServeAppends(s, a, b[..|b| - 1]);
      assert (a + b)[..|a + b| - 1] == a + b[..|b| - 1];
    }
  }

  // ---- what the driver prints ----

  lemma DecIsWord(n: nat)
    ensures IsWord(Dec(n)) && ParseInt(Dec(n)) == Int(n)
  {
    DecDenotes(n);
    assert forall i | 0 <= i < |Dec(n)| :: IsDigit(Dec(n)[i]);
  }

  ghost predicate AllWords(args: seq<seq<byte>>) { forall i | 0 <= i < |args| :: IsWord(args[i]) }

  lemma SignedDecIsWord(w: u32)
    ensures IsWord(SignedDec(w))
  {
    hide Dec;
    DecIsWord(if w < 0x8000_0000 then w else 0x1_0000_0000 - w);
  }

  lemma DecsAreWords(a: nat, b: nat, c: nat, d: nat)
    ensures AllWords([Dec(a)]) && AllWords([Dec(a), Dec(b)]) && AllWords([Dec(a), Dec(b), Dec(c)])
    ensures AllWords([Dec(a), Dec(b), Dec(c), Dec(d)])
  {
    hide Dec, IsWord;
    DecIsWord(a);
    DecIsWord(b);
    DecIsWord(c);
    DecIsWord(d);
  }

  lemma ArgsAreWords(c: Command)
    ensures AllWords(Args(c))
  {
    hide Dec, SignedDec, IsWord, AllWords;
    match c
    case Open(_, flags, baud) => DecsAreWords(flags, baud, 0, 0);
    case ReadPin(pin) => DecsAreWords(pin, 0, 0, 0);
    case GetConfig(_, param) => DecsAreWords(param, 0, 0, 0);
    case SetConfig(_, param, value) => DecsAreWords(param, value, 0, 0);
    case Transmit(_, len, txFlags, timeout) => DecsAreWords(len, txFlags, timeout, 0);
    case Filter(_, kind, txFlags, each) => DecsAreWords(kind, txFlags, each, 0);
    case StopFilter(_, id) => DecsAreWords(id, 0, 0, 0);
    case PeriodicStart(_, interval, txFlags, len) => DecsAreWords(interval, 0, txFlags, len);
    case PeriodicStop(_, id) => DecsAreWords(id, 0, 0, 0);
    case FastInit(_, len) => DecsAreWords(len, 0, 0, 0);
    case FiveBaud(_, address) => DecsAreWords(address, 0, 0, 0);
    case _ => OddArgsAreWords(c);
  }

  lemma OddArgsAreWords(c: Command)
    requires c.ClearFilters? || c.SetVoltage? || Args(c) == []
    ensures AllWords(Args(c))
  {
    hide Dec, SignedDec, IsWord;
    match c
    case ClearFilters(_) => MinusOneIsWord();
    case SetVoltage(pin, value) => DecIsWord(pin); SignedDecIsWord(value);
    case _ =>
  }

  lemma MinusOneIsWord()
    ensures IsWord(['-' as int] + Dec(1))
  {
  }

  lemma SentArgsAreWords(c: Command, number: u32)
    ensures AllWords(SentArgs(c, number))
  {
    hide Dec, Args, IsWord;
    ArgsAreWords(c);
    DecIsWord(number);
  }

  lemma {:induction false} WordFirst(w: seq<byte>, rest: seq<byte>)
    requires IsWord(w) && (rest == [] || IsSpace(rest[0]))
    ensures Words(w + rest) == [w] + Words(rest)
  {
    WordRunIs(w, rest);
    assert (w + rest)[..|w|] == w && (w + rest)[|w|..] == rest;
  }

  lemma {:induction false} WordRunIs(w: seq<byte>, rest: seq<byte>)
    requires (forall i | 0 <= i < |w| :: !IsSpace(w[i])) && (rest == [] || IsSpace(rest[0]))
    ensures WordRun(w + rest) == |w|
  {
    if w == [] {
      assert w + rest == rest;
    } else {
      WordRunIs(w[1..], rest);
      assert (w + rest)[1..] == w[1..] + rest;
    }
  }

  /** split() undoes the printing of arguments. */
  lemma {:induction false} WordsOfArgs(args: seq<seq<byte>>)
    requires AllWords(args)
    ensures Words(ArgsText(args)) == args
  {
    if args != [] {
      var text := ArgsText(args);
      assert text[0] == SP && text[1..] == args[0] + ArgsText(args[1..]);
      WordsOfArgs(args[1..]);
      WordFirst(args[0], ArgsText(args[1..]));
    }
  }

  lemma {:induction false} ArgsTextIsClean(args: seq<seq<byte>>)
    requires AllWords(args)
    ensures forall i | 0 <= i < |ArgsText(args)| :: ArgsText(args)[i] < 128 && ArgsText(args)[i] != CR && ArgsText(args)[i] != LF
    ensures args != [] ==> !IsSpace(ArgsText(args)[|ArgsText(args)| - 1])
  {
    if args != [] {
      ArgsTextIsClean(args[1..]);
      var text := ArgsText(args);
      assert text == [SP] + (args[0] + ArgsText(args[1..]));
      if args[1..] == [] {
        assert text[|text| - 1] == args[0][|args[0]| - 1];
      }
    }
  }

  /** A printed line holds no line break, does not begin or end in a space, and is ASCII. */
  lemma HeadIsClean(c: Command, number: u32)
    ensures var line := SentHead(c, number);
            && IsAscii(line) && Strip(line) == line && CR !in line && LF !in line
  {
    hide Dec, Args, SentArgs, ArgsText, Strip, Fused, Verb, IsWord;
    var args := SentArgs(c, number);
    SentArgsAreWords(c, number);
    ArgsTextIsClean(args);
    FusedIsDigits(c);
    var line, text := SentHead(c, number), ArgsText(args);
    assert line == ['a' as int, 't' as int, Verb(c)] + (Fused(c) + text);
    if args == [] {
      NoArgs();
      assert line[|line| - 1] == if Fused(c) == [] then Verb(c) else Fused(c)[|Fused(c)| - 1];
    } else {
      SomeArgs(args);
      assert line[|line| - 1] == text[|text| - 1];
    }
    CleanLine(Verb(c), Fused(c), text);
  }

  lemma CleanLine(verb: byte, fused: seq<byte>, text: seq<byte>)
    requires 65 <= verb < 128 && AllDigits(fused)
    requires forall i | 0 <= i < |text| :: text[i] < 128 && text[i] != CR && text[i] != LF
    ensures var line := ['a' as int, 't' as int, verb] + (fused + text);
            && IsAscii(line) && CR !in line && LF !in line
            && (!IsSpace(line[|line| - 1]) ==> Strip(line) == line)
  {
  }

  lemma NoArgs()
    ensures ArgsText([]) == []
  {
  }

  lemma SomeArgs(args: seq<seq<byte>>)
    requires args != []
    ensures ArgsText(args) != [] && ArgsText(args)[0] == SP
  {
  }

  lemma FusedIsDigits(c: Command)
    ensures AllDigits(Fused(c)) && 65 <= Verb(c) < 128
  {
    hide Dec;
    if Fused(c) != [] { DecDenotes(c.ch); }
  }

  /** -1 and -2 are the words VOLTAGE_OFF and SHORT_TO_GROUND again. */
  lemma SignedArrives(w: u32)
    ensures ParseInt(SignedDec(w)).Int? && ParseInt(SignedDec(w)).value % 0x1_0000_0000 == w
  {
    hide Dec, Value;
    if w < 0x8000_0000 {
      DecIsWord(w);
    } else {
      var n := 0x1_0000_0000 - w;
      DecDenotes(n);
      var text := SignedDec(w);
      assert text[1..] == Dec(n);
      assert ParseInt(text) == Int(-(n as int));
      assert -(n as int) == -1 * 0x1_0000_0000 + w;
    }
  }

  /** A line's channel digits and arguments, as they were printed. */
  lemma ArgumentsArrive(c: Command, number: u32)
    ensures var rest := SentHead(c, number)[3..];
            var n := DigitRun(rest);
            && n == |Fused(c)| && rest[..n] == Fused(c)
            && Words(rest[n..]) == SentArgs(c, number)
  {
    hide Dec, Args, SentArgs, ArgsText, Fused, Words;
    var args, fused := SentArgs(c, number), Fused(c);
    var rest := SentHead(c, number)[3..];
    SentArgsAreWords(c, number);
    WordsOfArgs(args);
    FusedIsDigits(c);
    assert rest == fused + ArgsText(args);
    if args == [] { NoArgs(); } else { SomeArgs(args); }
    DigitRunIs(fused, ArgsText(args));
    assert rest[..|fused|] == fused && rest[|fused|..] == ArgsText(args);
  }

  lemma RestOfHead(c: Command, number: u32)
    ensures var rest := SentHead(c, number)[3..];
            rest[DigitRun(rest)..] == ArgsText(SentArgs(c, number))
  {
    hide Dec, Args, SentArgs, ArgsText, Fused;
    var args := SentArgs(c, number);
    FusedIsDigits(c);
    assert SentHead(c, number)[3..] == Fused(c) + ArgsText(args);
    if args == [] { NoArgs(); } else { SomeArgs(args); }
    DigitRunIs(Fused(c), ArgsText(args));
  }

  /** The cable expects exactly the payload the host appends. */
  lemma DeclaresItsPayload(c: Command, number: u32)
    requires Encodable(c)
    ensures DeclaredPayload(SentHead(c, number)) == PayloadLength(c)
  {
    hide Args, SentArgs, ArgsText, Strip, Words, Declared, Fused;
    var args := SentArgs(c, number);
    SentArgsAreWords(c, number);
    HeadIsClean(c, number);
    RestOfHead(c, number);
    WordsOfArgs(args);
    ArgsDeclare(c, number);
    var line := SentHead(c, number);
    assert line[0] == 'a' as int && line[1] == 't' as int && line[2] == Verb(c);
  }

  lemma ArgsDeclare(c: Command, number: u32)
    requires Encodable(c)
    ensures Declared(Verb(c), SentArgs(c, number)) == PayloadLength(c)
  {
    hide Dec, ParseInt, SignedDec;
    if c.Transmit? || c.PeriodicStart? || c.FastInit? { DecIsWord(c.len); }
    if c.Filter? { DecIsWord(c.kind); DecIsWord(c.each); }
  }

  // ---- the number comes back ----

  /** KNOWN_ARGS: how many arguments a verb has without a number. */
  function KnownArgs(verb: byte): nat
  {
    if verb == 'm' as int then 4
    else if verb in {'o' as int, 't' as int, 'f' as int} then 3
    else if verb in {'s' as int, 'v' as int, 'y' as int, 'p' as int} then 2
    else if verb in {'k' as int, 'g' as int, 'r' as int, 'w' as int, 'n' as int} then 1
    else 0
  }

  /** CHANNEL_VERBS. */
  predicate IsChannelVerb(verb: byte)
  {
    verb in {'o' as int, 'c' as int, 't' as int, 'f' as int, 'k' as int, 'g' as int, 's' as int,
             'l' as int, 'y' as int, 'p' as int, 'n' as int, 'm' as int}
  }

  /** _trailing_seq, on what follows the verb. */
  function TrailingSeq(verb: byte, rest: seq<byte>): (n: PyInt)
    ensures n.Int? ==> n.value >= 0
  {
    var args := if IsChannelVerb(verb) then Words(rest[DigitRun(rest)..]) else Words(rest);
    if |args| > KnownArgs(verb) && args[|args| - 1] != [] && AllDigits(args[|args| - 1]) then
      assert IsDigit(args[|args| - 1][0]);
      ParseInt(args[|args| - 1])
    else ValueError
  }

  lemma ArgumentCount(c: Command, number: u32)
    requires IsNumbered(c)
    ensures var args := SentArgs(c, number);
            && args[|args| - 1] == Dec(number)
            && KnownArgs(Verb(c)) == |args| - 1 && (IsChannelVerb(Verb(c)) || c.FiveBaud? || Fused(c) == [])
  {
    hide Dec, SignedDec;
  }

  /** The cable reads the number the driver appended, and echoes that. */
  lemma NumberComesBack(c: Command, number: u32)
    requires IsNumbered(c)
    ensures TrailingSeq(Verb(c), SentHead(c, number)[3..]) == Int(number)
  {
    hide Dec, ArgsText, Words, ParseInt, Args, SentArgs, KnownArgs, IsChannelVerb, DigitRun, Verb, Fused;
    var args := SentArgs(c, number);
    var rest := SentHead(c, number)[3..];
    SentArgsAreWords(c, number);
    RestOfHead(c, number);
    WordsOfArgs(args);
    DecIsWord(number);
    DecDenotes(number);
    ArgumentCount(c, number);
    if !IsChannelVerb(Verb(c)) {
      assert rest == Fused(c) + ArgsText(args);
      if c.FiveBaud? {
        FiveBaudFused(c);
        SomeArgs(args);
        DecIsWord(c.ch);
        WordFirst(Dec(c.ch), ArgsText(args));
      } else {
        assert rest == ArgsText(args);
      }
    }
  }

  lemma FiveBaudFused(c: Command)
    requires c.FiveBaud?
    ensures Fused(c) == Dec(c.ch)
  {
  }

  // ---- the whole stream ----

  /** A command as transmitted: numbered line, CR LF, payload. */
  datatype Sent = Sent(command: Command, number: u32, payload: seq<byte>)

  ghost predicate Sendable(s: Sent)
  {
    Encodable(s.command) && |s.payload| == PayloadLength(s.command)
  }

  function OnWire(s: Sent): seq<byte>
  {
    SentHead(s.command, s.number) + [CR, LF] + s.payload
  }

  function WireOf(sent: seq<Sent>): seq<byte>
  {
    if sent == [] then [] else OnWire(sent[0]) + WireOf(sent[1..])
  }

  function RequestsOf(sent: seq<Sent>): seq<Request>
  {
    seq(|sent|, i requires 0 <= i < |sent| => Request(SentHead(sent[i].command, sent[i].number), sent[i].payload))
  }

  lemma {:induction false} TextAccumulates(s: Splitting, text: seq<byte>)
    requires s.want == 0 && CR !in text && LF !in text
    ensures Serve(s, text) == s.(line := s.line + text)
  {
    if text == [] {
      assert s.line + text == s.line;
    } else {
      var n := |text| - 1;
      assert text == text[..n] + [text[n]];
      TextAccumulates(s, text[..n]);
      assert s.line + text == s.line + text[..n] + [text[n]];
    }
  }

  lemma {:induction false} PayloadAccumulates(s: Splitting, payload: seq<byte>)
    requires s.want > |payload|
    ensures Serve(s, payload) == s.(pend := s.pend + payload, want := s.want - |payload|)
  {
    if payload == [] {
      assert s.pend + payload == s.pend;
    } else {
      var n := |payload| - 1;
      PayloadAccumulates(s, payload[..n]);
      assert s.pend + payload == s.pend + payload[..n] + [payload[n]];
    }
  }

  lemma OneCommandSplits(handled: seq<Request>, s: Sent)
    requires Sendable(s)
    ensures Serve(Splitting([], [], 0, handled), OnWire(s))
         == Splitting([], [], 0, handled + [Request(SentHead(s.command, s.number), s.payload)])
  {
    hide DeclaredPayload, SentHead, Serve, PayloadLength;
    var line := SentHead(s.command, s.number);
    var start := Splitting([], [], 0, handled);
    HeadIsClean(s.command, s.number);
    DeclaresItsPayload(s.command, s.number);
    TextAccumulates(start, line);
    assert [] + line == line;
    var s1 := start.(line := line);
    ServeBreak(s1);
    ServeAppends(start, line, [CR, LF]);
    ServeAppends(start, line + [CR, LF], s.payload);
    var s2 := ServeByte(s1, LF);
    if s.payload == [] {
      assert line + [CR, LF] + [] == line + [CR, LF];
    } else {
      var n := |s.payload| - 1;
      PayloadAccumulates(s2, s.payload[..n]);
      ServeLast(s2, s.payload);
      assert [] + s.payload[..n] + [s.payload[n]] == s.payload;
    }
  }

  lemma ServeBreak(s: Splitting)
    requires s.want == 0
    ensures Serve(s, [CR, LF]) == ServeByte(s, LF)
  {
    assert [CR, LF][..1] == [CR] && [CR][..0] == [];
    assert Serve(s, [CR]) == s;
  }

  lemma ServeLast(s: Splitting, data: seq<byte>)
    requires data != []
    ensures Serve(s, data) == ServeByte(Serve(s, data[..|data| - 1]), data[|data| - 1])
  {
  }

  lemma {:induction false} StreamSplits(handled: seq<Request>, sent: seq<Sent>)
    requires forall i | 0 <= i < |sent| :: Sendable(sent[i])
    ensures Serve(Splitting([], [], 0, handled), WireOf(sent)) == Splitting([], [], 0, handled + RequestsOf(sent))
    decreases |sent|
  {
    hide OnWire, SentHead, Serve, ServeByte;
    var start := Splitting([], [], 0, handled);
    if sent == [] {
      ServesNothing(start);
      assert handled + RequestsOf(sent) == handled;
    } else {
      OneCommandSplits(handled, sent[0]);
      var first := Request(SentHead(sent[0].command, sent[0].number), sent[0].payload);
      StreamSplits(handled + [first], sent[1..]);
      ServeAppends(start, OnWire(sent[0]), WireOf(sent[1..]));
      assert handled + RequestsOf(sent) == handled + [first] + RequestsOf(sent[1..]);
    }
  }

  lemma ServesNothing(s: Splitting)
    ensures Serve(s, []) == s
  {
  }

  /** Host-to-device round trip: any commands the encoders produce, numbered, each followed by its
      payload of arbitrary bytes, reach the cable's handler as exactly those lines and payloads. */
  lemma CommandStreamRoundTrip(sent: seq<Sent>)
    requires forall i | 0 <= i < |sent| :: Sendable(sent[i])
    ensures Serve(Splitting([], [], 0, []), WireOf(sent)) == Splitting([], [], 0, RequestsOf(sent))
  {
    StreamSplits([], sent);
    assert [] + RequestsOf(sent) == RequestsOf(sent);
  }
}
