/** The host-to-device half of the wire: the command printers, the number inserter, and the cable's
    splitter of lines and payloads. */
module Commands {
  import opened Bytes
  import opened Decimal
  import opened Proto

  /** The commands the driver sends, with the arguments of their encoders. */
  datatype Command =
    | CloseAll
    | Reset
    | Version
    | Open(ch: u32, flags: u32, baud: u32)
    | Close(ch: u32)
    | ReadPin(pin: u32)
    | GetConfig(ch: u32, param: u32)
    | SetConfig(ch: u32, param: u32, value: u32)
    | Transmit(ch: u32, len: nat, txFlags: u32, timeout: u32)
    | Filter(ch: u32, kind: u32, txFlags: u32, each: nat)
    | StopFilter(ch: u32, id: u32)
    | ClearFilters(ch: u32)
    | ClearPeriodic(ch: u32)
    | PeriodicStart(ch: u32, interval: u32, txFlags: u32, len: nat)
    | PeriodicStop(ch: u32, id: u32)
    | FastInit(ch: u32, len: nat)
    | FiveBaud(ch: u32, address: u32)
    | SetVoltage(pin: u32, value: u32)

  /** What the encoder accepts; it reports failure for anything else. */
  predicate Encodable(c: Command)
  {
    match c
    case Transmit(_, len, _, _) => 1 <= len <= MSG_MAX
    case PeriodicStart(_, _, _, len) => 1 <= len <= MSG_MAX
    case Filter(_, _, _, each) => 1 <= each <= 255
    case FastInit(_, len) => len <= 255
    case FiveBaud(_, address) => address <= 255
    case _ => true
  }

  /** op_filter_msg_count. */
  function FilterMessages(kind: int): nat
  {
    if kind == 1 || kind == 2 then 2 else if kind == 3 then 3 else 0
  }

  /** How many payload bytes the host appends. */
  function PayloadLength(c: Command): nat
  {
    match c
    case Transmit(_, len, _, _) => len
    case PeriodicStart(_, _, _, len) => len
    case Filter(_, kind, _, each) => FilterMessages(kind) * each
    case FastInit(_, len) => len
    case _ => 0
  }

  function Verb(c: Command): byte
  {
    match c
    case CloseAll => 'a' as int
    case Reset => 'z' as int
    case Version => 'i' as int
    case Open(_, _, _) => 'o' as int
    case Close(_) => 'c' as int
    case ReadPin(_) => 'r' as int
    case GetConfig(_, _) => 'g' as int
    case SetConfig(_, _, _) => 's' as int
    case Transmit(_, _, _, _) => 't' as int
    case Filter(_, _, _, _) => 'f' as int
    case StopFilter(_, _) => 'k' as int
    case ClearFilters(_) => 'k' as int
    case ClearPeriodic(_) => 'l' as int
    case PeriodicStart(_, _, _, _) => 'm' as int
    case PeriodicStop(_, _) => 'n' as int
    case FastInit(_, _) => 'y' as int
    case FiveBaud(_, _) => 'w' as int
    case SetVoltage(_, _) => 'v' as int
  }

  /** The channel digits fused to the verb. */
  function Fused(c: Command): seq<byte>
  {
    if c.CloseAll? || c.Reset? || c.Version? || c.ReadPin? || c.SetVoltage? then [] else Dec(c.ch)
  }

  /** `%ld` of a 32-bit word taken as signed, so that the two largest words print as -1 and -2. */
  function SignedDec(w: u32): seq<byte>
  {
    if w < 0x8000_0000 then Dec(w) else ['-' as int] + Dec(0x1_0000_0000 - w)
  }

  /** The arguments behind it. */
  function Args(c: Command): seq<seq<byte>>
  {
    match c
    case Open(_, flags, baud) => [Dec(flags), Dec(baud), Dec(0)]
    case ReadPin(pin) => [Dec(pin)]
    case GetConfig(_, param) => [Dec(param)]
    case SetConfig(_, param, value) => [Dec(param), Dec(value)]
    case Transmit(_, len, txFlags, timeout) => [Dec(len), Dec(txFlags), Dec(timeout)]
    case Filter(_, kind, txFlags, each) => [Dec(kind), Dec(txFlags), Dec(each)]
    case StopFilter(_, id) => [Dec(id)]
    case ClearFilters(_) => [['-' as int] + Dec(1)]
    case PeriodicStart(_, interval, txFlags, len) => [Dec(interval), Dec(0), Dec(txFlags), Dec(len)]
    case PeriodicStop(_, id) => [Dec(id)]
    case FastInit(_, len) => [Dec(len), Dec(0)]
    case FiveBaud(_, address) => [Dec(address)]
    case SetVoltage(pin, value) => [Dec(pin), SignedDec(value)]
    case _ => []
  }

  /** Each argument behind a space. */
  function ArgsText(args: seq<seq<byte>>): seq<byte>
  {
    if args == [] then [] else [SP] + args[0] + ArgsText(args[1..])
  }

  /** A line without its CR LF. */
  function Head(verb: byte, fused: seq<byte>, args: seq<seq<byte>>): seq<byte>
  {
    ['a' as int, 't' as int, verb] + fused + ArgsText(args)
  }

  /** op_cmd_*: the line with its CR LF. */
  function Encode(c: Command): seq<byte>
  {
    Head(Verb(c), Fused(c), Args(c)) + [CR, LF]
  }

  predicate IsNumbered(c: Command) { !c.Version? }

  /** The arguments as sent: the number behind them, except on `ati`. */
  function SentArgs(c: Command, number: u32): seq<seq<byte>>
  {
    Args(c) + if IsNumbered(c) then [Dec(number)] else []
  }

  function SentHead(c: Command, number: u32): (line: seq<byte>)
    ensures |line| >= 3
  {
    Head(Verb(c), Fused(c), SentArgs(c, number))
  }

  // ---- lines fit their buffers ----

  lemma {:induction false} ArgsTextLength(args: seq<seq<byte>>, each: nat)
    requires forall i | 0 <= i < |args| :: |args[i]| <= each
    ensures |ArgsText(args)| <= |args| * (each + 1)
  {
    if args != [] { ArgsTextLength(args[1..], each); }
  }

  /** No line is ever truncated: each fits OP_CMD_MAX, and with its number the 80-byte buffer. */
  lemma LinesFit(c: Command, number: u32)
    requires Encodable(c)
    ensures |Encode(c)| < CMD_MAX && |SentHead(c, number)| + 3 <= CMD_MAX + 16
  {
    hide Dec;
    DecLength(number);
    ArgsAreShort(c);
    ArgsTextLength(Args(c), 11);
    ArgsTextLength(SentArgs(c, number), 11);
  }

  lemma ArgsAreShort(c: Command)
    requires Encodable(c)
    ensures |Fused(c)| <= 10 && |Args(c)| <= 4 && forall i | 0 <= i < |Args(c)| :: |Args(c)[i]| <= 11
  {
    hide Dec;
    DecLength(0);
    DecLength(1);
    if Fused(c) != [] { DecLength(c.ch); }
    match c
    case Open(_, flags, baud) => DecLength(flags); DecLength(baud);
    case ReadPin(pin) => DecLength(pin);
    case GetConfig(_, param) => DecLength(param);
    case SetConfig(_, param, value) => DecLength(param); DecLength(value);
    case Transmit(_, len, txFlags, timeout) => DecLength(len); DecLength(txFlags); DecLength(timeout);
    case Filter(_, kind, txFlags, each) => DecLength(kind); DecLength(txFlags); DecLength(each);
    case StopFilter(_, id) => DecLength(id);
    case PeriodicStart(_, interval, txFlags, len) => DecLength(interval); DecLength(txFlags); DecLength(len);
    case PeriodicStop(_, id) => DecLength(id);
    case FastInit(_, len) => DecLength(len);
    case FiveBaud(_, address) => DecLength(address);
    case SetVoltage(pin, value) =>
      DecLength(pin);
      DecLength(if value < 0x8000_0000 then value else 0x1_0000_0000 - value);
    case _ =>
  }

  lemma {:induction false} ArgsTextAppends(a: seq<seq<byte>>, b: seq<seq<byte>>)
    ensures ArgsText(a + b) == ArgsText(a) + ArgsText(b)
  {
    if a == [] {
      assert a + b == b;
    } else {
      ArgsTextAppends(a[1..], b);
      assert (a + b)[1..] == a[1..] + b && (a + b)[0] == a[0];
      assert ArgsText(a + b) == [SP] + a[0] + ArgsText(a[1..] + b);
    }
  }

  /** op_cmd_number: " <seq>" goes in front of the CR LF of the line in `buf[..len]`, unless the line
      is malformed or would not fit, with its terminating zero. */
  method OpCmdNumber(buf: array<byte>, len: nat, number: u32) returns (n: nat)
    requires len <= buf.Length
    modifies buf
    ensures n > 0 <==> len >= 4 && old(buf[..len][len - 2..]) == [CR, LF] && len + 1 + |Dec(number)| + 1 <= buf.Length
    ensures n > 0 ==> n == len + 1 + |Dec(number)| && buf[..n] == old(buf[..len - 2]) + [SP] + Dec(number) + [CR, LF]
    ensures n == 0 ==> buf[..] == old(buf[..])
  {
    if len < 4 || buf[len - 2] != CR || buf[len - 1] != LF { return 0; }
    var tail := [SP] + Dec(number);
    if len - 2 + |tail| + 3 > buf.Length { return 0; }
    var text := tail + [CR, LF, 0];
    forall i | 0 <= i < |text| { buf[len - 2 + i] := text[i]; }
    n := len + |tail|;
    assert buf[..n] == buf[..len - 2] + buf[len - 2..n];
    assert buf[len - 2..n] == tail + [CR, LF];
  }

  /** Numbering an encoded line in the driver's buffer succeeds and gives the line as sent. */
  lemma NumberedEncoding(c: Command, number: u32)
    requires Encodable(c) && IsNumbered(c)
    ensures var line := Encode(c);
            && |line| >= 4 && line[|line| - 2..] == [CR, LF]
            && |line| + 1 + |Dec(number)| + 1 <= CMD_MAX + 16
            && line[..|line| - 2] + [SP] + Dec(number) + [CR, LF] == SentHead(c, number) + [CR, LF]
  {
    hide Dec, Args, Fused, ArgsText, Verb;
    LinesFit(c, number);
    ArgsTextAppends(Args(c), [Dec(number)]);
    OneArg(Dec(number));
    var line, head := Encode(c), Head(Verb(c), Fused(c), Args(c));
    assert line[..|line| - 2] == head;
    assert SentHead(c, number) == head + ([SP] + Dec(number));
  }

  lemma OneArg(w: seq<byte>)
    ensures ArgsText([w]) == [SP] + w
  {
    assert [w][1..] == [];
  }
}
