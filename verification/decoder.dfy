/** What the cable takes a command line to mean: a decoder from its side, and the proof that the driver's lines
    mean the commands they were printed for. */
module Decoder {
  import opened Bytes
  import opened Decimal
  import opened Commands
  import opened Splitter

  datatype Understanding = NotUnderstood | Understood(command: Command)

  /** An argument that is a 32-bit number. */
  predicate IsWord32(args: seq<seq<byte>>, i: nat)
  {
    i < |args| && var n := ParseInt(args[i]); n.Int? && 0 <= n.value <= U32_MAX
  }

  function Word32(args: seq<seq<byte>>, i: nat): u32
    requires IsWord32(args, i)
  {
    ParseInt(args[i]).value
  }

  predicate AreWords32(args: seq<seq<byte>>, n: nat) { forall i | 0 <= i < n :: IsWord32(args, i) }

  /** The verbs that carry their channel, by their letter, channel and arguments:

      ato<ch> <flags> <baud> 0, atc<ch>, atg<ch> <param>, ats<ch> <param> <value>, att<ch> <len> <txflags> <budget>,
      atf<ch> <type> <txflags> <len>, atk<ch> <id> or -1, atl<ch>, atm<ch> <interval> 0 <txflags> <len>, atn<ch> <id>,
      aty<ch> <len> 0, atw<ch> <address>. */
  function OnChannel(verb: char, ch: u32, args: seq<seq<byte>>): Understanding
  {
    match verb
    case 'o' => if AreWords32(args, 3) && Word32(args, 2) == 0 then Understood(Open(ch, Word32(args, 0), Word32(args, 1))) else NotUnderstood
    case 'c' => Understood(Close(ch))
    case 'g' => if AreWords32(args, 1) then Understood(GetConfig(ch, Word32(args, 0))) else NotUnderstood
    case 's' => if AreWords32(args, 2) then Understood(SetConfig(ch, Word32(args, 0), Word32(args, 1))) else NotUnderstood
    case 't' =>
      if AreWords32(args, 3) then Understood(Transmit(ch, Word32(args, 0), Word32(args, 1), Word32(args, 2))) else NotUnderstood
    case 'f' =>
      if AreWords32(args, 3) then Understood(Filter(ch, Word32(args, 0), Word32(args, 1), Word32(args, 2))) else NotUnderstood
    case 'k' =>
      if args != [] && ParseInt(args[0]) == Int(-1) then Understood(ClearFilters(ch))
      else if AreWords32(args, 1) then Understood(StopFilter(ch, Word32(args, 0))) else NotUnderstood
    case 'l' => Understood(ClearPeriodic(ch))
    case 'm' =>
      if AreWords32(args, 4) && Word32(args, 1) == 0
      then Understood(PeriodicStart(ch, Word32(args, 0), Word32(args, 2), Word32(args, 3))) else NotUnderstood
    case 'n' => if AreWords32(args, 1) then Understood(PeriodicStop(ch, Word32(args, 0))) else NotUnderstood
    case 'y' => if AreWords32(args, 2) && Word32(args, 1) == 0 then Understood(FastInit(ch, Word32(args, 0))) else NotUnderstood
    case 'w' => if AreWords32(args, 1) then Understood(FiveBaud(ch, Word32(args, 0))) else NotUnderstood
    case _ => NotUnderstood
  }

  /** The others: ata, atz, ati, atr <pin>, atv <pin> <value>, the value a 32-bit word, perhaps printed signed. */
  function OnDevice(verb: char, args: seq<seq<byte>>): Understanding
  {
    match verb
    case 'a' => Understood(CloseAll)
    case 'z' => Understood(Reset)
    case 'i' => Understood(Version)
    case 'r' => if AreWords32(args, 1) then Understood(ReadPin(Word32(args, 0))) else NotUnderstood
    case 'v' =>
      if AreWords32(args, 1) && |args| >= 2 && ParseInt(args[1]).Int?
      then Understood(SetVoltage(Word32(args, 0), ParseInt(args[1]).value % 0x1_0000_0000)) else NotUnderstood
    case _ => NotUnderstood
  }

  function Understand(line: seq<byte>): Understanding
  {
    if |line| < 3 || line[0] != 'a' as int || line[1] != 't' as int || line[2] >= 128 then NotUnderstood
    else
      var verb, rest := line[2] as char, line[3..];
      var n := DigitRun(rest);
      if n == 0 then OnDevice(verb, Words(rest))
      else if Value(rest[..n]) > U32_MAX then NotUnderstood
      else OnChannel(verb, Value(rest[..n]), Words(rest[n..]))
  }

  lemma DecIsWord32(n: u32, args: seq<seq<byte>>, i: nat)
    requires i < |args| && args[i] == Dec(n)
    ensures IsWord32(args, i) && Word32(args, i) == n
  {
    hide ParseInt;
    DecIsWord(n);
  }

  predicate ForDevice(c: Command) { c.CloseAll? || c.Reset? || c.Version? || c.ReadPin? || c.SetVoltage? }

  lemma ChannelCommandDecodes(c: Command, args: seq<seq<byte>>)
    requires Encodable(c) && !ForDevice(c) && |args| >= |Args(c)| && args[..|Args(c)|] == Args(c)
    ensures OnChannel(Verb(c) as char, c.ch, args) == Understood(c)
  {
    hide Dec, ParseInt, Word32, IsWord32;
    forall i | 0 <= i < |Args(c)| ensures args[i] == Args(c)[i] {
      assert args[..|Args(c)|][i] == args[i];
    }
    DecIsWord(0);
    match c
    case Open(_, flags, baud) => DecIsWord32(flags, args, 0); DecIsWord32(baud, args, 1); DecIsWord32(0, args, 2);
    case GetConfig(_, param) => DecIsWord32(param, args, 0);
    case SetConfig(_, param, value) => DecIsWord32(param, args, 0); DecIsWord32(value, args, 1);
    case Transmit(_, len, txFlags, timeout) => DecIsWord32(len, args, 0); DecIsWord32(txFlags, args, 1); DecIsWord32(timeout, args, 2);
    case Filter(_, kind, txFlags, each) => DecIsWord32(kind, args, 0); DecIsWord32(txFlags, args, 1); DecIsWord32(each, args, 2);
    case StopFilter(_, id) => DecIsWord32(id, args, 0); DecIsWord(id);
    case ClearFilters(_) => MinusOne();
    case PeriodicStart(_, interval, txFlags, len) =>
      DecIsWord32(interval, args, 0); DecIsWord32(0, args, 1); DecIsWord32(txFlags, args, 2); DecIsWord32(len, args, 3);
    case PeriodicStop(_, id) => DecIsWord32(id, args, 0);
    case FastInit(_, len) => DecIsWord32(len, args, 0); DecIsWord32(0, args, 1);
    case FiveBaud(_, address) => DecIsWord32(address, args, 0);
    case _ =>
  }

  lemma MinusOne()
    ensures ParseInt(['-' as int] + Dec(1)) == Int(-1)
  {
    assert (['-' as int] + Dec(1))[1..] == Dec(1);
    DecDenotes(1);
  }

  lemma DeviceCommandDecodes(c: Command, args: seq<seq<byte>>)
    requires ForDevice(c) && |args| >= |Args(c)| && args[..|Args(c)|] == Args(c)
    ensures OnDevice(Verb(c) as char, args) == Understood(c)
  {
    hide Dec, ParseInt, Word32, IsWord32, SignedDec;
    forall i | 0 <= i < |Args(c)| ensures args[i] == Args(c)[i] {
      assert args[..|Args(c)|][i] == args[i];
    }
    match c
    case ReadPin(pin) => DecIsWord32(pin, args, 0);
    case SetVoltage(pin, value) => DecIsWord32(pin, args, 0); SignedArrives(value);
    case _ =>
  }

  /** Every line the driver sends is understood as the command it was printed for, every argument in its place. */
  lemma LineIsUnderstood(c: Command, number: u32)
    requires Encodable(c)
    ensures Understand(SentHead(c, number)) == Understood(c)
  {
    hide Dec, Value, Args, ArgsText, Fused, Verb, Words, OnChannel, OnDevice;
    var line := SentHead(c, number);
    var rest, args := line[3..], SentArgs(c, number);
    FusedIsDigits(c);
    ArgumentsArrive(c, number);
    assert line[0] == 'a' as int && line[1] == 't' as int && line[2] == Verb(c);
    assert args[..|Args(c)|] == Args(c);
    FusedIsChannel(c);
    if ForDevice(c) {
      assert rest[0..] == rest;
      DeviceCommandDecodes(c, args);
    } else {
      DecDenotes(c.ch);
      ChannelCommandDecodes(c, args);
    }
  }

  lemma FusedIsChannel(c: Command)
    ensures Fused(c) == if ForDevice(c) then [] else Dec(c.ch)
  {
  }

  /** So no two commands print the same line. */
  lemma LinesAreDistinct(a: Command, b: Command, m: u32, n: u32)
    requires Encodable(a) && Encodable(b) && SentHead(a, m) == SentHead(b, n)
    ensures a == b && (IsNumbered(a) ==> m == n)
  {
    hide SentHead, Understand, TrailingSeq;
    LineIsUnderstood(a, m);
    LineIsUnderstood(b, n);
    if IsNumbered(a) {
      NumberComesBack(a, m);
      NumberComesBack(b, n);
    }
  }

  /** The whole host-to-device direction: any numbered commands, each with its payload, reach the handler as
      lines that mean those commands, with their numbers and their payloads, and nothing else. */
  lemma CommandsArrive(sent: seq<Sent>)
    requires forall i | 0 <= i < |sent| :: Sendable(sent[i])
    ensures var end := Serve(Splitting([], [], 0, []), WireOf(sent));
            && end.line == [] && end.want == 0 && |end.handled| == |sent|
            && forall i | 0 <= i < |sent| ::
                 var request, s := end.handled[i], sent[i];
                 && Understand(request.line) == Understood(s.command) && request.payload == s.payload
                 && (IsNumbered(s.command) ==>
                       |request.line| >= 3 && TrailingSeq(request.line[2], request.line[3..]) == Int(s.number))
  {
    hide Understand, Serve, WireOf, TrailingSeq, Verb, Fused, SentArgs, Encodable;
    CommandStreamRoundTrip(sent);
    forall i | 0 <= i < |sent|
      ensures Understand(RequestsOf(sent)[i].line) == Understood(sent[i].command)
      ensures IsNumbered(sent[i].command) ==>
                var line := RequestsOf(sent)[i].line; |line| >= 3 && TrailingSeq(line[2], line[3..]) == Int(sent[i].number)
    {
      LineIsUnderstood(sent[i].command, sent[i].number);
      if IsNumbered(sent[i].command) {
        NumberComesBack(sent[i].command, sent[i].number);
        assert SentHead(sent[i].command, sent[i].number)[2] == Verb(sent[i].command);
      }
    }
  }
}
