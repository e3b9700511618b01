/** The simulated cable's channel and periodic-message state, from the text of a command to the text of its
    answer, and its agreement with the host's. */
module Cables {
  import opened Bytes
  import opened Decimal
  import opened Channels
  import opened Sessions
  import Commands
  import Proto
  import ReplyText
  import Slots
  import Splitter

  /** A periodic message: its interval in microseconds and its flags. */
  datatype Repeat = Repeat(interval: int, txFlags: int)

  /** A channel as the cable runs it, with its live periodic messages by their ids. */
  datatype CableChan = CableChan(flags: int, baud: int, periodic: map<nat, Repeat>)

  /** The open channels, and the next id, which never restarts. */
  datatype Cable = Cable(channels: map<nat, CableChan>, nextId: nat)
  {
    function WithPeriodic(ch: nat, periodic: map<nat, Repeat>): Cable
      requires ch in channels
    {
      this.(channels := channels[ch := channels[ch].(periodic := periodic)])
    }
  }

  const VOLTAGE_PINS: set<int> := {0, 1, 3, 9, 11, 12, 13}
  const GROUND_PINS: set<int> := {0, 1, 3, 9, 11, 12, 13, 7, 10, 15}

  /** The pins and limits of _cmd_voltage. */
  function VoltageAnswer(pin: int, value: u32): Answer
  {
    if value == VOLTAGE_OFF || value == SHORT_TO_GROUND then (if pin in GROUND_PINS then Okay else Refused(ERR_PIN_INVALID))
    else if pin !in VOLTAGE_PINS then Refused(ERR_PIN_INVALID)
    else if value < 5000 then Refused(120)
    else if value > 20000 then Refused(119)
    else Okay
  }

  /** The commands this bookkeeping sends. */
  predicate OfSession(k: Commands.Command)
  {
    k.Open? || k.Close? || k.SetVoltage? || k.PeriodicStart? || k.PeriodicStop? || k.ClearPeriodic?
  }

  /** What the cable makes of them. The host reads an id back saturated at 32 bits. */
  function Execute(c: Cable, k: Commands.Command): (out: (Cable, Answer))
    requires OfSession(k)
  {
    match k
    case Open(ch, flags, baud) =>
      if !(3 <= ch <= 9) then (c, Refused(ERR_INVALID_PROTOCOL_ID))
      else if ch in c.channels then (c, Refused(ERR_CHANNEL_IN_USE))
      else if OtherOnLine(c, ch) then (c, Refused(ERR_INVALID_PROTOCOL_ID))
      else (c.(channels := c.channels[ch := CableChan(flags, baud, map[])]), Okay)
    case Close(ch) => (c.(channels := c.channels - {ch}), Okay)
    case SetVoltage(pin, value) => (c, VoltageAnswer(pin, value))
    case PeriodicStart(ch, interval, txFlags, _) =>
      if ch !in c.channels then (c, Refused(ERR_FAILED))
      else if |c.channels[ch].periodic| >= PERIODIC_MAX then (c, Refused(ERR_EXCEEDED_LIMIT))
      else (c.WithPeriodic(ch, c.channels[ch].periodic[c.nextId := Repeat(interval, txFlags)]).(nextId := c.nextId + 1),
            PeriodicId(Min(c.nextId, U32_MAX)))
    case PeriodicStop(ch, id) =>
      if ch !in c.channels then (c, Refused(ERR_FAILED))
      else if id !in c.channels[ch].periodic then (c, Refused(ERR_INVALID_MSG_ID))
      else (c.WithPeriodic(ch, c.channels[ch].periodic - {id}), Okay)
    case ClearPeriodic(ch) => (if ch in c.channels then c.WithPeriodic(ch, map[]) else c, Okay)
  }

  /** Channels 3 and 4 share a line, and so do 7 and 8. */
  predicate OtherOnLine(c: Cable, ch: nat)
  {
    (ch in {3, 4} && (3 in c.channels || 4 in c.channels)) || (ch in {7, 8} && (7 in c.channels || 8 in c.channels))
  }

  // ---- the same from text to text ----

  /** The number a reply echoes, if the command had one. */
  datatype SeqEcho = NoSeq | Seq(number: nat)

  function EchoOf(verb: byte, rest: seq<byte>): SeqEcho
  {
    var n := Splitter.TrailingSeq(verb, rest);
    if n.ValueError? then NoSeq else Seq(n.value)
  }

  /** _with_seq. */
  function WithSeq(body: seq<byte>, e: SeqEcho): seq<byte>
  {
    ReplyText.Line(body + if e.NoSeq? then [] else ReplyText.Field(e.number, []))
  }

  function OkLine(e: SeqEcho): seq<byte> { WithSeq(['o' as int], e) }

  function ErrLine(code: u32, e: SeqEcho): seq<byte> { WithSeq(['e' as int] + ReplyText.Field(code, []), e) }

  function IdLine(ch: nat, id: nat, e: SeqEcho): seq<byte>
  {
    WithSeq(['m' as int] + Dec(ch) + ReplyText.Field(id, []), e)
  }

  /** _split_ch: the channel digits fused to the verb, and the arguments. */
  datatype Split = Split(hasChannel: bool, channel: nat, args: seq<seq<byte>>)

  function SplitCh(rest: seq<byte>): Split
  {
    var n := DigitRun(rest);
    Split(n > 0, Value(rest[..n]), Splitter.Words(rest[n..]))
  }

  predicate IsInt(w: seq<byte>) { Splitter.ParseInt(w).Int? }

  /** _cmd_open. */
  function OnOpen(c: Cable, rest: seq<byte>, e: SeqEcho): (Cable, seq<byte>)
  {
    var s := SplitCh(rest);
    if !s.hasChannel || |s.args| < 3 then (c, ErrLine(ERR_FAILED, e))
    else if !(3 <= s.channel <= 9) then (c, ErrLine(ERR_INVALID_PROTOCOL_ID, e))
    else if s.channel in c.channels then (c, ErrLine(ERR_CHANNEL_IN_USE, e))
    else if OtherOnLine(c, s.channel) then (c, ErrLine(ERR_INVALID_PROTOCOL_ID, e))
    else if !IsInt(s.args[0]) || !IsInt(s.args[1]) then (c, ErrLine(ERR_FAILED, e))
    else
      var made := CableChan(Splitter.ParseInt(s.args[0]).value, Splitter.ParseInt(s.args[1]).value, map[]);
      (c.(channels := c.channels[s.channel := made]), OkLine(e))
  }

  /** _cmd_close. */
  function OnClose(c: Cable, rest: seq<byte>, e: SeqEcho): (Cable, seq<byte>)
  {
    var s := SplitCh(rest);
    if !s.hasChannel then (c, ErrLine(ERR_FAILED, e)) else (c.(channels := c.channels - {s.channel}), OkLine(e))
  }

  /** _cmd_voltage: a negative number stands for the 32-bit word. */
  function OnVoltage(rest: seq<byte>, e: SeqEcho): seq<byte>
  {
    var args := Splitter.Words(rest);
    if |args| < 2 || !IsInt(args[0]) || !IsInt(args[1]) then ErrLine(ERR_INVALID_MSG, e)
    else
      var answer := VoltageAnswer(Splitter.ParseInt(args[0]).value, Splitter.ParseInt(args[1]).value % 0x1_0000_0000);
      if answer.Refused? then ErrLine(answer.code, e) else OkLine(e)
  }

  /** _cmd_periodic_vendor. */
  function OnPeriodicStart(c: Cable, rest: seq<byte>, payload: seq<byte>, e: SeqEcho): (Cable, seq<byte>)
  {
    var s := SplitCh(rest);
    if !s.hasChannel || s.channel !in c.channels || |s.args| < 4 then (c, ErrLine(ERR_FAILED, e))
    else if !IsInt(s.args[0]) || !IsInt(s.args[2]) || !IsInt(s.args[3]) then (c, ErrLine(ERR_FAILED, e))
    else if Splitter.ParseInt(s.args[3]).value != |payload| then (c, ErrLine(ERR_INVALID_MSG, e))
    else if |c.channels[s.channel].periodic| >= 10 then (c, ErrLine(ERR_EXCEEDED_LIMIT, e))
    else
      var repeat := Repeat(Splitter.ParseInt(s.args[0]).value, Splitter.ParseInt(s.args[2]).value);
      (c.WithPeriodic(s.channel, c.channels[s.channel].periodic[c.nextId := repeat]).(nextId := c.nextId + 1),
       IdLine(s.channel, c.nextId, e))
  }

  /** _cmd_periodic_stop. */
  function OnPeriodicStop(c: Cable, rest: seq<byte>, e: SeqEcho): (Cable, seq<byte>)
  {
    var s := SplitCh(rest);
    if !s.hasChannel || s.args == [] || s.channel !in c.channels || !IsInt(s.args[0]) then (c, ErrLine(ERR_FAILED, e))
    else
      var id := Splitter.ParseInt(s.args[0]).value;
      if id < 0 || id !in c.channels[s.channel].periodic then (c, ErrLine(ERR_INVALID_MSG_ID, e))
      else (c.WithPeriodic(s.channel, c.channels[s.channel].periodic - {id}), OkLine(e))
  }

  /** _cmd_clear_periodic. */
  function OnClearPeriodic(c: Cable, rest: seq<byte>, e: SeqEcho): (Cable, seq<byte>)
  {
    var s := SplitCh(rest);
    (if s.hasChannel && s.channel in c.channels then c.WithPeriodic(s.channel, map[]) else c, OkLine(e))
  }

  /** What handle() makes of a line; `Elsewhere` is a verb that leaves this state alone. */
  datatype Handled = Elsewhere | Handled(cable: Cable, reply: seq<byte>)

  function Handle(c: Cable, line: seq<byte>, payload: seq<byte>): Handled
  {
    var s := Splitter.Strip(line);
    if |s| < 3 || s[0] != 'a' as int || s[1] != 't' as int then Handled(c, [])
    else
      var verb, rest := s[2], s[3..];
      var e := EchoOf(verb, rest);
      if verb == 'a' as int || verb == 'z' as int then Handled(c.(channels := map[]), OkLine(e))
      else if verb == 'o' as int then (var (c', r) := OnOpen(c, rest, e); Handled(c', r))
      else if verb == 'c' as int then (var (c', r) := OnClose(c, rest, e); Handled(c', r))
      else if verb == 'v' as int then Handled(c, OnVoltage(rest, e))
      else if verb == 'm' as int then (var (c', r) := OnPeriodicStart(c, rest, payload, e); Handled(c', r))
      else if verb == 'n' as int then (var (c', r) := OnPeriodicStop(c, rest, e); Handled(c', r))
      else if verb == 'l' as int then (var (c', r) := OnClearPeriodic(c, rest, e); Handled(c', r))
      else Elsewhere
  }

  /** The simulator's channel and periodic-message state in place. */
  class OpenPortSim {
    var channels: map<nat, CableChan>
    var nextPeriodicId: nat

    constructor ()
      ensures Abs() == Cable(map[], 0)
    {
      channels, nextPeriodicId := map[], 0;
    }

    function Abs(): Cable
      reads this
    {
      Cable(channels, nextPeriodicId)
    }

    /** _cmd_open. */
    method CmdOpen(rest: seq<byte>, e: SeqEcho) returns (reply: seq<byte>)
      modifies this`channels
      ensures (Abs(), reply) == OnOpen(old(Abs()), rest, e)
    {
      hide SplitCh, ErrLine, OkLine, Splitter.ParseInt;
      var s := SplitCh(rest);
      if !s.hasChannel || |s.args| < 3 { return ErrLine(ERR_FAILED, e); }
      var ch := s.channel;
      if ch < 3 || ch > 9 { return ErrLine(ERR_INVALID_PROTOCOL_ID, e); }
      if ch in channels { return ErrLine(ERR_CHANNEL_IN_USE, e); }
      var lines := [(3, 4), (7, 8)];
      for i := 0 to |lines|
        invariant forall k | 0 <= k < i && ch in {lines[k].0, lines[k].1} :: lines[k].0 !in channels && lines[k].1 !in channels
      {
        var (a, b) := lines[i];
        if (ch == a || ch == b) && (a in channels || b in channels) { return ErrLine(ERR_INVALID_PROTOCOL_ID, e); }
      }
      assert lines[0] == (3, 4) && lines[1] == (7, 8);
      if !IsInt(s.args[0]) || !IsInt(s.args[1]) { return ErrLine(ERR_FAILED, e); }
      channels := channels[ch := CableChan(Splitter.ParseInt(s.args[0]).value, Splitter.ParseInt(s.args[1]).value, map[])];
      return OkLine(e);
    }

    /** _cmd_close. */
    method CmdClose(rest: seq<byte>, e: SeqEcho) returns (reply: seq<byte>)
      modifies this`channels
      ensures (Abs(), reply) == OnClose(old(Abs()), rest, e)
    {
      var s := SplitCh(rest);
      if !s.hasChannel { return ErrLine(ERR_FAILED, e); }
      channels := channels - {s.channel};
      return OkLine(e);
    }

    /** _cmd_periodic_vendor. */
    method CmdPeriodicVendor(rest: seq<byte>, payload: seq<byte>, e: SeqEcho) returns (reply: seq<byte>)
      modifies this
      ensures (Abs(), reply) == OnPeriodicStart(old(Abs()), rest, payload, e)
    {
      hide SplitCh, ErrLine, OkLine, IdLine;
      var s := SplitCh(rest);
      if !s.hasChannel || s.channel !in channels || |s.args| < 4 { return ErrLine(ERR_FAILED, e); }
      if !IsInt(s.args[0]) || !IsInt(s.args[2]) || !IsInt(s.args[3]) { return ErrLine(ERR_FAILED, e); }
      if Splitter.ParseInt(s.args[3]).value != |payload| { return ErrLine(ERR_INVALID_MSG, e); }
      if |channels[s.channel].periodic| >= 10 { return ErrLine(ERR_EXCEEDED_LIMIT, e); }
      var id := nextPeriodicId;
      nextPeriodicId := nextPeriodicId + 1;
      var repeat := Repeat(Splitter.ParseInt(s.args[0]).value, Splitter.ParseInt(s.args[2]).value);
      channels := channels[s.channel := channels[s.channel].(periodic := channels[s.channel].periodic[id := repeat])];
      return IdLine(s.channel, id, e);
    }

    /** _cmd_periodic_stop. */
    method CmdPeriodicStop(rest: seq<byte>, e: SeqEcho) returns (reply: seq<byte>)
      modifies this`channels
      ensures (Abs(), reply) == OnPeriodicStop(old(Abs()), rest, e)
    {
      hide SplitCh, ErrLine, OkLine;
      var s := SplitCh(rest);
      if !s.hasChannel || s.args == [] { return ErrLine(ERR_FAILED, e); }
      if s.channel !in channels { return ErrLine(ERR_FAILED, e); }
      if !IsInt(s.args[0]) { return ErrLine(ERR_FAILED, e); }
      var id := Splitter.ParseInt(s.args[0]).value;
      if id < 0 || id !in channels[s.channel].periodic { return ErrLine(ERR_INVALID_MSG_ID, e); }
      channels := channels[s.channel := channels[s.channel].(periodic := channels[s.channel].periodic - {id})];
      return OkLine(e);
    }

    /** _cmd_clear_periodic. */
    method CmdClearPeriodic(rest: seq<byte>, e: SeqEcho) returns (reply: seq<byte>)
      modifies this`channels
      ensures (Abs(), reply) == OnClearPeriodic(old(Abs()), rest, e)
    {
      var s := SplitCh(rest);
      if s.hasChannel && s.channel in channels {
        channels := channels[s.channel := channels[s.channel].(periodic := map[])];
      }
      return OkLine(e);
    }
  }

  // ---- what the cable keeps, whatever it is sent ----

  /** Channels 3 to 9, one for each shared line, with at most ten periodic messages each, no id twice, and all of
      them given out already. */
  ghost predicate CableInv(c: Cable)
  {
    && (forall ch <- c.channels :: 3 <= ch <= 9 && |c.channels[ch].periodic| <= 10)
    && !(3 in c.channels && 4 in c.channels) && !(7 in c.channels && 8 in c.channels)
    && (forall ch <- c.channels, id <- c.channels[ch].periodic :: id < c.nextId)
    && (forall a <- c.channels, b <- c.channels, id <- c.channels[a].periodic :: id in c.channels[b].periodic ==> a == b)
  }

  lemma NoChannelsKeepInv(c: Cable)
    ensures CableInv(c.(channels := map[]))
  {
  }

  lemma OpenKeepsInv(c: Cable, rest: seq<byte>, e: SeqEcho)
    requires CableInv(c)
    ensures CableInv(OnOpen(c, rest, e).0) && c.nextId == OnOpen(c, rest, e).0.nextId
  {
    hide SplitCh, IsInt, OkLine, ErrLine;
  }

  lemma CloseKeepsInv(c: Cable, rest: seq<byte>, e: SeqEcho)
    requires CableInv(c)
    ensures CableInv(OnClose(c, rest, e).0) && c.nextId == OnClose(c, rest, e).0.nextId
  {
    hide SplitCh, OkLine, ErrLine;
  }

  lemma StartKeepsInv(c: Cable, rest: seq<byte>, payload: seq<byte>, e: SeqEcho)
    requires CableInv(c)
    ensures CableInv(OnPeriodicStart(c, rest, payload, e).0) && c.nextId <= OnPeriodicStart(c, rest, payload, e).0.nextId
  {
    hide SplitCh, IsInt, IdLine, ErrLine;
  }

  lemma StopKeepsInv(c: Cable, rest: seq<byte>, e: SeqEcho)
    requires CableInv(c)
    ensures CableInv(OnPeriodicStop(c, rest, e).0) && c.nextId == OnPeriodicStop(c, rest, e).0.nextId
  {
    hide SplitCh, IsInt, OkLine, ErrLine;
  }

  lemma ClearKeepsInv(c: Cable, rest: seq<byte>, e: SeqEcho)
    requires CableInv(c)
    ensures CableInv(OnClearPeriodic(c, rest, e).0) && c.nextId == OnClearPeriodic(c, rest, e).0.nextId
  {
    hide SplitCh, OkLine;
  }

  lemma HandlingKeepsInv(c: Cable, line: seq<byte>, payload: seq<byte>)
    requires CableInv(c)
    ensures Handle(c, line, payload).Handled? ==>
              CableInv(Handle(c, line, payload).cable) && c.nextId <= Handle(c, line, payload).cable.nextId
  {
    hide CableInv, EchoOf, OkLine, OnVoltage, Splitter.Strip, OnOpen, OnClose, OnPeriodicStart, OnPeriodicStop, OnClearPeriodic;
    var s := Splitter.Strip(line);
    if |s| >= 3 {
      var rest, e := s[3..], EchoOf(s[2], s[3..]);
      NoChannelsKeepInv(c);
      OpenKeepsInv(c, rest, e);
      CloseKeepsInv(c, rest, e);
      StartKeepsInv(c, rest, payload, e);
      StopKeepsInv(c, rest, e);
      ClearKeepsInv(c, rest, e);
    }
  }

  /** The lines of a session, known or not, and what is left of the state behind them. */
  function HandleAll(c: Cable, requests: seq<Splitter.Request>): Cable
  {
    if requests == [] then c
    else
      var n := |requests| - 1;
      var before := HandleAll(c, requests[..n]);
      var h := Handle(before, requests[n].line, requests[n].payload);
      if h.Handled? then h.cable else before
  }

  /** Over any lines and payloads whatever, the driver's or not, the cable keeps to its lines and limits, and gives
      no periodic id out twice. */
  lemma {:induction false} CableInvariants(nextId: nat, requests: seq<Splitter.Request>)
    ensures CableInv(HandleAll(Cable(map[], nextId), requests))
  {
    hide Handle;
    if requests != [] {
      var n := |requests| - 1;
      CableInvariants(nextId, requests[..n]);
      HandlingKeepsInv(HandleAll(Cable(map[], nextId), requests[..n]), requests[n].line, requests[n].payload);
    }
  }

  // ---- what the driver prints is what the cable executes ----

  /** The line the cable answers a command with. */
  function AnswerLine(c: Cable, k: Commands.Command, number: u32): seq<byte>
    requires OfSession(k)
  {
    match Execute(c, k).1
    case Okay => OkLine(Seq(number))
    case Refused(code) => ErrLine(code, Seq(number))
    case PeriodicId(_) => IdLine(k.ch, c.nextId, Seq(number))
  }

  lemma ChannelArrives(k: Commands.Command, number: u32)
    requires OfSession(k) && !k.SetVoltage?
    ensures SplitCh(Commands.SentHead(k, number)[3..]) == Split(true, k.ch, Commands.SentArgs(k, number))
  {
    hide Dec, Value, Commands.SentArgs, Commands.SentHead, Splitter.Words;
    Splitter.ArgumentsArrive(k, number);
    DecDenotes(k.ch);
  }

  lemma PinArrives(k: Commands.Command, number: u32)
    requires k.SetVoltage?
    ensures Splitter.Words(Commands.SentHead(k, number)[3..]) == Commands.SentArgs(k, number)
  {
    hide Dec, Commands.SentArgs, Commands.SentHead, Splitter.Words;
    Splitter.ArgumentsArrive(k, number);
    var rest := Commands.SentHead(k, number)[3..];
    assert rest[0..] == rest;
  }

  /** Every command's line, as sent and split, is executed as the command it was printed from, and answered
      with its number. */
  lemma LineExecutes(c: Cable, k: Commands.Command, number: u32, payload: seq<byte>)
    requires OfSession(k) && Commands.Encodable(k) && |payload| == Commands.PayloadLength(k)
    ensures Handle(c, Commands.SentHead(k, number), payload) == Handled(Execute(c, k).0, AnswerLine(c, k, number))
  {
    hide Dec, Commands.Fused, Commands.ArgsText, Splitter.Strip, SplitCh, EchoOf, OkLine, ErrLine, IdLine,
      OnOpen, OnClose, OnVoltage, OnPeriodicStart, OnPeriodicStop, OnClearPeriodic, Commands.SentArgs;
    var line := Commands.SentHead(k, number);
    Splitter.HeadIsClean(k, number);
    EchoArrives(k, number);
    assert line[0] == 'a' as int && line[1] == 't' as int && line[2] == Commands.Verb(k);
    match k
    case Open(_, _, _) => OpenExecutes(c, k, number);
    case Close(_) => CloseExecutes(c, k, number);
    case SetVoltage(_, _) => VoltageExecutes(c, k, number);
    case PeriodicStart(_, _, _, _) => StartExecutes(c, k, number, payload);
    case PeriodicStop(_, _) => StopExecutes(c, k, number);
    case ClearPeriodic(_) => ClearExecutes(c, k, number);
  }

  lemma EchoArrives(k: Commands.Command, number: u32)
    requires OfSession(k)
    ensures EchoOf(Commands.Verb(k), Commands.SentHead(k, number)[3..]) == Seq(number)
  {
    hide Commands.SentHead, Commands.Verb, Splitter.TrailingSeq;
    Splitter.NumberComesBack(k, number);
  }

  lemma OpenExecutes(c: Cable, k: Commands.Command, number: u32)
    requires k.Open?
    ensures OnOpen(c, Commands.SentHead(k, number)[3..], Seq(number)) == (Execute(c, k).0, AnswerLine(c, k, number))
  {
    hide Dec, Commands.SentHead, SplitCh, OkLine, ErrLine, IdLine, Splitter.ParseInt;
    ChannelArrives(k, number);
    Splitter.DecIsWord(k.flags);
    Splitter.DecIsWord(k.baud);
  }

  lemma CloseExecutes(c: Cable, k: Commands.Command, number: u32)
    requires k.Close?
    ensures OnClose(c, Commands.SentHead(k, number)[3..], Seq(number)) == (Execute(c, k).0, AnswerLine(c, k, number))
  {
    hide Commands.SentHead, SplitCh, OkLine, ErrLine, IdLine;
    ChannelArrives(k, number);
  }

  lemma VoltageExecutes(c: Cable, k: Commands.Command, number: u32)
    requires k.SetVoltage?
    ensures (c, OnVoltage(Commands.SentHead(k, number)[3..], Seq(number))) == (Execute(c, k).0, AnswerLine(c, k, number))
  {
    hide Dec, Commands.SentHead, Commands.SignedDec, OkLine, ErrLine, IdLine, Splitter.ParseInt, Splitter.Words, VoltageAnswer;
    PinArrives(k, number);
    Splitter.DecIsWord(k.pin);
    Splitter.SignedArrives(k.value);
    VoltageIsNoId(k.pin, k.value);
  }

  lemma VoltageIsNoId(pin: int, value: u32)
    ensures !VoltageAnswer(pin, value).PeriodicId?
  {
  }

  lemma StartExecutes(c: Cable, k: Commands.Command, number: u32, payload: seq<byte>)
    requires k.PeriodicStart? && |payload| == k.len
    ensures OnPeriodicStart(c, Commands.SentHead(k, number)[3..], payload, Seq(number))
         == (Execute(c, k).0, AnswerLine(c, k, number))
  {
    hide Dec, Commands.SentHead, SplitCh, OkLine, ErrLine, IdLine, Splitter.ParseInt;
    ChannelArrives(k, number);
    Splitter.DecIsWord(k.interval);
    Splitter.DecIsWord(k.txFlags);
    Splitter.DecIsWord(k.len);
  }

  lemma StopExecutes(c: Cable, k: Commands.Command, number: u32)
    requires k.PeriodicStop?
    ensures OnPeriodicStop(c, Commands.SentHead(k, number)[3..], Seq(number)) == (Execute(c, k).0, AnswerLine(c, k, number))
  {
    hide Dec, Commands.SentHead, SplitCh, OkLine, ErrLine, IdLine, Splitter.ParseInt;
    ChannelArrives(k, number);
    Splitter.DecIsWord(k.id);
  }

  lemma ClearExecutes(c: Cable, k: Commands.Command, number: u32)
    requires k.ClearPeriodic?
    ensures OnClearPeriodic(c, Commands.SentHead(k, number)[3..], Seq(number)) == (Execute(c, k).0, AnswerLine(c, k, number))
  {
    hide Commands.SentHead, SplitCh, OkLine, ErrLine, IdLine;
    ChannelArrives(k, number);
  }

  // ---- what the cable prints is what the host reads ----

  /** device_error. */
  function DeviceError(code: u32): u32
  {
    if code <= 0x27 || code == 0x77 || code == 0x78 then code else ERR_FAILED
  }

  /** reply_to_status, with the id of an `arm`. An `are 0` is no error to it. */
  function HostAnswer(r: Proto.Reply): Answer
  {
    if r.Error? && DeviceError(r.code) != STATUS_NOERROR then Refused(DeviceError(r.code))
    else if r.Periodic? then PeriodicId(r.a) else Okay
  }

  /** The line as it decodes. */
  function AnswerReply(c: Cable, k: Commands.Command, number: u32): Proto.Reply
    requires OfSession(k)
  {
    match Execute(c, k).1
    case Okay => Proto.Ok([number])
    case Refused(code) => Proto.Error(code, true, number, [number])
    case PeriodicId(id) => Proto.Periodic(k.ch, id, [number])
  }

  lemma AnswerParses(c: Cable, k: Commands.Command, number: u32)
    requires OfSession(k)
    ensures Proto.Parse(AnswerLine(c, k, number)).reply == AnswerReply(c, k, number)
  {
    hide Dec, Proto.Parse, ReplyText.Line;
    var line, tail := AnswerLine(c, k, number), ReplyText.Field(number, []);
    OneToken(number);
    assert line + [] == line;
    match Execute(c, k).1
    case Okay =>
      ReplyText.TextRoundTrip(Proto.Ok([number]), []);
      assert ReplyText.Wire(Proto.Ok([number])) == line;
    case Refused(code) =>
      var r := Proto.Error(code, true, number, [number]);
      ReplyText.TextRoundTrip(r, []);
      assert ['e' as int] + ReplyText.Field(code, []) + tail == ['e' as int] + ReplyText.Field(code, tail);
      assert ReplyText.Wire(r) == line;
    case PeriodicId(_) =>
      ReplyText.PeriodicLineReads(k.ch, c.nextId, [number], []);
      assert ['m' as int] + Dec(k.ch) + ReplyText.Field(c.nextId, []) + tail
          == ['m' as int] + (Dec(k.ch) + ReplyText.Field(c.nextId, tail));
  }

  lemma OneToken(number: u32)
    ensures ReplyText.Tail([number]) == ReplyText.Field(number, [])
  {
    assert [number][1..] == [];
  }

  /** The slot of a command that waits. */
  function WaitingFor(k: Commands.Command, number: u32): Slots.Slot
  {
    Slots.Slot(true, false, number, Commands.Verb(k), Proto.Incomplete, false)
  }

  /** The command's own slot takes the answer, and the host reads from it what the cable meant. */
  lemma AnswerArrives(c: Cable, k: Commands.Command, number: u32)
    requires OfSession(k) && number >= Slots.SEQ_FIRST
    ensures var s := Slots.Stash(WaitingFor(k, number), Proto.Parse(AnswerLine(c, k, number)).reply);
            s.valid && HostAnswer(s.reply) == Execute(c, k).1
  {
    hide AnswerLine, Proto.Parse;
    AnswerParses(c, k, number);
    CodesAreNamed(c, k);
  }

  lemma CodesAreNamed(c: Cable, k: Commands.Command)
    requires OfSession(k)
    ensures var answer := Execute(c, k).1; answer.Refused? ==> DeviceError(answer.code) == answer.code
  {
  }

  // ---- the two ends ----

  /** The command a call that passed its checks sends. */
  function CommandOf(h: Host, call: Call): (k: Commands.Command)
    requires |h.chans| == CHANNELS && Check(h, call) == STATUS_NOERROR
    ensures OfSession(k) && Commands.Encodable(k)
  {
    match call
    case Connect(protocol, flags, baud, _) => Commands.Open(ProtocolChannel(protocol), flags, baud)
    case Disconnect(ch) => Commands.Close(ch)
    case SetVoltage(pin, value) => Commands.SetVoltage(pin, value)
    case StartPeriodic(ch, m, interval) => Commands.PeriodicStart(ch, interval * 1000, m.txFlags, m.size)
    case StopPeriodic(ch, id) => Commands.PeriodicStop(ch, id)
    case ClearPeriodic(ch) => Commands.ClearPeriodic(ch)
  }

  /** Both ends. */
  datatype Link = Link(host: Host, cable: Cable)

  /** What becomes of a command and its reply; a lost one leaves the host with a timeout. */
  datatype Fate = Answered | ReplyLost | RequestLost

  const TIMEOUT := Refused(9)

  function Transact(c: Cable, command: Commands.Command, fate: Fate): (out: (Cable, Answer))
    requires OfSession(command)
  {
    match fate
    case Answered => Execute(c, command)
    case ReplyLost => (Execute(c, command).0, TIMEOUT)
    case RequestLost => (c, TIMEOUT)
  }

  /** One call over the link. A Connect whose queue cannot be had closes the channel again. */
  function Step(l: Link, call: Call, fate: Fate, closing: Fate): (l': Link)
    requires |l.host.chans| == CHANNELS
    ensures |l'.host.chans| == CHANNELS
  {
    if Check(l.host, call) != STATUS_NOERROR then l
    else
      var (cable, answer) := Transact(l.cable, CommandOf(l.host, call), fate);
      var undone := if call.Connect? && !answer.Refused? && !call.memory
                    then Transact(cable, Commands.Close(ProtocolChannel(call.protocol)), closing).0 else cable;
      Link(Do(l.host, call, answer), undone)
  }

  /** The ids the host holds for a channel, as a set. */
  function Ids(ids: seq<u32>): set<nat> { set id: nat | id in ids }

  ghost predicate Distinct(ids: seq<u32>) { forall i, j | 0 <= i < j < |ids| :: ids[i] != ids[j] }

  ghost predicate AgreeOn(c: HostChan, cable: Cable, ch: nat)
  {
    && (c.open <==> ch in cable.channels)
    && (c.open ==> Ids(c.periodic) == cable.channels[ch].periodic.Keys && Distinct(c.periodic)
                   && forall id <- c.periodic :: id < cable.nextId)
  }

  /** The two ends agree: the same channels are open, each with the same periodic messages. */
  ghost predicate Agree(l: Link)
    requires |l.host.chans| == CHANNELS
  {
    && (forall ch <- l.cable.channels :: ch < CHANNELS)
    && forall ch | 0 <= ch < CHANNELS :: AgreeOn(l.host.chans[ch], l.cable, ch)
  }

  lemma {:induction false} IdsCount(ids: seq<u32>)
    requires Distinct(ids)
    ensures |Ids(ids)| == |ids|
  {
    if ids != [] {
      var n := |ids| - 1;
      IdsCount(ids[..n]);
      assert ids == ids[..n] + [ids[n]];
      assert Ids(ids) == Ids(ids[..n]) + {ids[n] as nat};
      assert ids[n] as nat !in Ids(ids[..n]);
    }
  }

  /** Dropping one id and moving the last into its place takes exactly that id away. */
  lemma ForgetRemoves(ids: seq<u32>, slot: nat)
    requires slot < |ids| && Distinct(ids)
    ensures Ids(Forget(ids, slot)) == Ids(ids) - {ids[slot] as nat} && Distinct(Forget(ids, slot))
  {
    var r, n := Forget(ids, slot), |ids| - 1;
    assert forall i | 0 <= i < n :: r[i] == if i == slot then ids[n] else ids[i];
    forall id: nat | id in ids && id != ids[slot] ensures id in r {
      var i :| 0 <= i < |ids| && ids[i] == id;
      assert r[if i == n then slot else i] == id;
    }
    forall id: nat | id in r ensures id in ids && id != ids[slot] {
      var i :| 0 <= i < n && r[i] == id;
    }
  }

  lemma AppendAdds(ids: seq<u32>, id: u32)
    requires Distinct(ids) && id !in ids
    ensures Ids(ids + [id]) == Ids(ids) + {id as nat} && Distinct(ids + [id])
  {
  }

  /** While the ends agree, every command that opens a channel or starts or stops a periodic message and
      passes the host's checks is accepted by the cable. */
  lemma ChecksSuffice(l: Link, call: Call)
    requires |l.host.chans| == CHANNELS && Agree(l) && LineInv(l.host)
    requires Check(l.host, call) == STATUS_NOERROR && !call.SetVoltage?
    ensures !Execute(l.cable, CommandOf(l.host, call)).1.Refused?
    ensures call.StartPeriodic? ==> Execute(l.cable, CommandOf(l.host, call)).1.PeriodicId?
  {
    if call.StartPeriodic? {
      IdsCount(l.host.chans[call.ch].periodic);
    }
  }

  lemma ChannelCallKeepsAgreement(l: Link, call: Call)
    requires |l.host.chans| == CHANNELS && Agree(l) && LineInv(l.host) && l.cable.nextId <= U32_MAX
    requires Check(l.host, call) == STATUS_NOERROR && (call.Connect? || call.Disconnect? || call.ClearPeriodic?)
    ensures Agree(Step(l, call, Answered, Answered))
  {
    ChecksSuffice(l, call);
    var l' := Step(l, call, Answered, Answered);
    assert Ids([]) == {};
    forall ch | 0 <= ch < CHANNELS ensures AgreeOn(l'.host.chans[ch], l'.cable, ch) {
      assert AgreeOn(l.host.chans[ch], l.cable, ch);
    }
  }

  lemma StartKeepsAgreement(l: Link, call: Call)
    requires |l.host.chans| == CHANNELS && Agree(l) && LineInv(l.host) && l.cable.nextId <= U32_MAX
    requires call.StartPeriodic? && Check(l.host, call) == STATUS_NOERROR
    ensures Agree(Step(l, call, Answered, Answered))
  {
    hide Ids, Distinct;
    ChecksSuffice(l, call);
    var l' := Step(l, call, Answered, Answered);
    AppendAdds(l.host.chans[call.ch].periodic, l.cable.nextId);
    forall i | 0 <= i < CHANNELS ensures AgreeOn(l'.host.chans[i], l'.cable, i) {
      assert AgreeOn(l.host.chans[i], l.cable, i);
    }
  }

  /** The bound is exact: the start of a periodic message keeps the ends in agreement if and only if the
      host can read its id back. */
  lemma StartKeepsAgreementIff(l: Link, call: Call)
    requires |l.host.chans| == CHANNELS && Agree(l) && LineInv(l.host)
    requires call.StartPeriodic? && Check(l.host, call) == STATUS_NOERROR
    ensures Agree(Step(l, call, Answered, Answered)) <==> l.cable.nextId <= U32_MAX
  {
    if l.cable.nextId <= U32_MAX {
      StartKeepsAgreement(l, call);
    } else {
      ChecksSuffice(l, call);
      var l' := Step(l, call, Answered, Answered);
      assert l.cable.nextId in l'.cable.channels[call.ch].periodic;
      assert l.cable.nextId !in Ids(l'.host.chans[call.ch].periodic);
      assert !AgreeOn(l'.host.chans[call.ch], l'.cable, call.ch);
    }
  }

  /** An example: the first periodic message of a session on a cable that has given out 2^32 ids. */
  lemma LateIdIsMisread()
    ensures var message := Outgoing(CAN, 0, 4);
            var start := Link(FRESH, Cable(map[], 0x1_0000_0000));
            var connected := Step(start, Connect(CAN, 0, 500_000, true), Answered, Answered);
            var l := Step(connected, StartPeriodic(5, message, 100), Answered, Answered);
            && Agree(connected) && !Agree(l)
            && l.host.chans[5].periodic == [U32_MAX] && l.cable.channels[5].periodic.Keys == {0x1_0000_0000}
  {
    hide Agree, Step, Check, LineInv;
    var connected := LateConnect();
    StartKeepsAgreementIff(connected, StartPeriodic(5, Outgoing(CAN, 0, 4), 100));
    LateStart(connected);
  }

  lemma LateStart(connected: Link)
    requires connected == Link(Host(FRESH.chans[5 := HostChan(true, CAN, [])], {}, {}), Cable(map[5 := CableChan(0, 500_000, map[])], 0x1_0000_0000))
    ensures var l := Step(connected, StartPeriodic(5, Outgoing(CAN, 0, 4), 100), Answered, Answered);
            l.host.chans[5].periodic == [U32_MAX] && l.cable.channels[5].periodic.Keys == {0x1_0000_0000}
  {
    assert [] + [U32_MAX] == [U32_MAX];
  }

  lemma LateConnect() returns (connected: Link)
    ensures connected == Step(Link(FRESH, Cable(map[], 0x1_0000_0000)), Connect(CAN, 0, 500_000, true), Answered, Answered)
    ensures connected == Link(Host(FRESH.chans[5 := HostChan(true, CAN, [])], {}, {}), Cable(map[5 := CableChan(0, 500_000, map[])], 0x1_0000_0000))
    ensures Agree(connected) && LineInv(connected.host)
    ensures Check(connected.host, StartPeriodic(5, Outgoing(CAN, 0, 4), 100)) == STATUS_NOERROR
  {
    var start := Link(FRESH, Cable(map[], 0x1_0000_0000));
    connected := Step(start, Connect(CAN, 0, 500_000, true), Answered, Answered);
    assert connected.host.chans[5] == HostChan(true, CAN, []);
    assert connected.cable == Cable(map[5 := CableChan(0, 500_000, map[])], 0x1_0000_0000);
    assert Ids([]) == {};
    forall ch | 0 <= ch < CHANNELS ensures AgreeOn(connected.host.chans[ch], connected.cable, ch) {
      assert ch != 5 ==> connected.host.chans[ch] == CLOSED;
    }
  }

  lemma StopKeepsAgreement(l: Link, ch: u32, id: u32)
    requires |l.host.chans| == CHANNELS && Agree(l) && LineInv(l.host)
    requires Check(l.host, StopPeriodic(ch, id)) == STATUS_NOERROR
    ensures Agree(Step(l, StopPeriodic(ch, id), Answered, Answered))
  {
    hide Forget, Distinct;
    ChecksSuffice(l, StopPeriodic(ch, id));
    var l' := Step(l, StopPeriodic(ch, id), Answered, Answered);
    var ids := l.host.chans[ch].periodic;
    ForgetRemoves(ids, IndexOf(ids, id));
    var left := Forget(ids, IndexOf(ids, id));
    assert forall x <- left :: x as nat in Ids(left);
    forall i | 0 <= i < CHANNELS ensures AgreeOn(l'.host.chans[i], l'.cable, i) {
      assert AgreeOn(l.host.chans[i], l.cable, i);
    }
  }

  lemma AnsweredKeepsAgreement(l: Link, call: Call)
    requires |l.host.chans| == CHANNELS && Agree(l) && LineInv(l.host) && l.cable.nextId <= U32_MAX
    ensures Agree(Step(l, call, Answered, Answered)) && l.cable.nextId <= Step(l, call, Answered, Answered).cable.nextId
  {
    if Check(l.host, call) == STATUS_NOERROR {
      if call.Connect? || call.Disconnect? || call.ClearPeriodic? {
        ChannelCallKeepsAgreement(l, call);
      } else if call.StartPeriodic? {
        StartKeepsAgreement(l, call);
      } else if call.StopPeriodic? {
        StopKeepsAgreement(l, call.ch, call.id);
      }
    }
  }

  // ---- whole sessions ----

  function AnsweredRun(l: Link, calls: seq<Call>): (l': Link)
    requires |l.host.chans| == CHANNELS
    ensures |l'.host.chans| == CHANNELS
  {
    if calls == [] then l else Step(AnsweredRun(l, calls[..|calls| - 1]), calls[|calls| - 1], Answered, Answered)
  }

  lemma {:induction false} AnsweredRunKeeps(l: Link, calls: seq<Call>)
    requires |l.host.chans| == CHANNELS && Agree(l) && LineInv(l.host)
    requires AnsweredRun(l, calls).cable.nextId <= U32_MAX
    ensures Agree(AnsweredRun(l, calls)) && LineInv(AnsweredRun(l, calls).host)
  {
    hide Agree, LineInv, Step;
    if calls != [] {
      var before, call := AnsweredRun(l, calls[..|calls| - 1]), calls[|calls| - 1];
      IdsOnlyGrow(before, call, Answered, Answered);
      AnsweredRunKeeps(l, calls[..|calls| - 1]);
      AnsweredKeepsAgreement(before, call);
      StepKeepsLines(before, call, Answered, Answered);
    }
  }

  lemma IdsOnlyGrow(l: Link, call: Call, fate: Fate, closing: Fate)
    requires |l.host.chans| == CHANNELS
    ensures l.cable.nextId <= Step(l, call, fate, closing).cable.nextId
  {
  }

  lemma StepKeepsLines(l: Link, call: Call, fate: Fate, closing: Fate)
    requires |l.host.chans| == CHANNELS && LineInv(l.host)
    ensures LineInv(Step(l, call, fate, closing).host)
  {
    hide LineInv;
    if Check(l.host, call) == STATUS_NOERROR {
      CallKeepsLines(l.host, call, Transact(l.cable, CommandOf(l.host, call), fate).1);
    }
  }

  /** In a session whose commands are all answered the two ends agree after every call, no channel has
      more than ten periodic messages, and the next command that passes the host's checks will be
      accepted (a voltage excepted: which pins and voltages there are is the cable's to say). */
  lemma HostAndCableAgree(nextId: nat, calls: seq<Call>, next: Call)
    requires AnsweredRun(Link(FRESH, Cable(map[], nextId)), calls).cable.nextId <= U32_MAX
    ensures var l := AnsweredRun(Link(FRESH, Cable(map[], nextId)), calls);
            && Agree(l)
            && (forall ch <- l.cable.channels :: |l.cable.channels[ch].periodic| <= PERIODIC_MAX)
            && (Check(l.host, next) == STATUS_NOERROR && !next.SetVoltage? ==>
                  !Execute(l.cable, CommandOf(l.host, next)).1.Refused?)
  {
    hide AnsweredRun, Check, Execute;
    var start := Link(FRESH, Cable(map[], nextId));
    AnsweredRunKeeps(start, calls);
    var l := AnsweredRun(start, calls);
    forall ch | ch in l.cable.channels ensures |l.cable.channels[ch].periodic| <= PERIODIC_MAX {
      assert AgreeOn(l.host.chans[ch], l.cable, ch);
      IdsCount(l.host.chans[ch].periodic);
    }
    if Check(l.host, next) == STATUS_NOERROR && !next.SetVoltage? {
      ChecksSuffice(l, next);
    }
  }

  /** Every channel the host believes open is open on the cable. */
  ghost predicate HostWithin(l: Link)
    requires |l.host.chans| == CHANNELS
  {
    forall ch | 0 <= ch < CHANNELS :: l.host.chans[ch].open ==> ch in l.cable.channels
  }

  lemma LossyKeepsWithin(l: Link, call: Call, fate: Fate, closing: Fate)
    requires |l.host.chans| == CHANNELS && HostWithin(l)
    ensures HostWithin(Step(l, call, fate, closing))
  {
  }

  /** A call and what became of its commands. */
  datatype Happened = Happened(call: Call, fate: Fate, closing: Fate)

  function LossyRun(l: Link, calls: seq<Happened>): (l': Link)
    requires |l.host.chans| == CHANNELS
    ensures |l'.host.chans| == CHANNELS
  {
    if calls == [] then l
    else
      var h := calls[|calls| - 1];
      Step(LossyRun(l, calls[..|calls| - 1]), h.call, h.fate, h.closing)
  }

  /** With any commands or replies lost, the host's open channels stay among the cable's. */
  lemma {:induction false} LossyRunStaysWithin(l: Link, calls: seq<Happened>)
    requires |l.host.chans| == CHANNELS && HostWithin(l)
    ensures HostWithin(LossyRun(l, calls))
  {
    hide Step, HostWithin;
    if calls != [] {
      var h := calls[|calls| - 1];
      LossyRunStaysWithin(l, calls[..|calls| - 1]);
      LossyKeepsWithin(LossyRun(l, calls[..|calls| - 1]), h.call, h.fate, h.closing);
    }
  }

  /** Nor does the host forget a message that still runs, whatever is lost: an id it held and no longer holds on a
      channel it believes open is not live there. */
  lemma NothingLiveIsForgotten(l: Link, call: Call, fate: Fate, closing: Fate, ch: nat, id: u32)
    requires |l.host.chans| == CHANNELS && ch < CHANNELS && id in l.host.chans[ch].periodic && l.host.chans[ch].open
    ensures var l' := Step(l, call, fate, closing);
            l'.host.chans[ch].open && ch in l'.cable.channels && id in l'.cable.channels[ch].periodic
            ==> id in l'.host.chans[ch].periodic
  {
    var ids := l.host.chans[ch].periodic;
    if Check(l.host, call) == STATUS_NOERROR && call.StopPeriodic? && call.ch == ch && id != call.id {
      var slot := IndexOf(ids, call.id);
      var i :| 0 <= i < |ids| && ids[i] == id;
      assert Forget(ids, slot)[if i == |ids| - 1 then slot else i] == id;
    }
  }

  /** And a stop that is answered, be it that there is no such message, leaves the id forgotten. */
  lemma StoppedIsForgotten(l: Link, ch: u32, id: u32, closing: Fate)
    requires |l.host.chans| == CHANNELS && Check(l.host, StopPeriodic(ch, id)) == STATUS_NOERROR
    requires Distinct(l.host.chans[ch].periodic) && ch in l.cable.channels
    ensures var l' := Step(l, StopPeriodic(ch, id), Answered, closing);
            && Ids(l'.host.chans[ch].periodic) == Ids(l.host.chans[ch].periodic) - {id as nat}
            && ch in l'.cable.channels && id !in l'.cable.channels[ch].periodic
  {
    ForgetRemoves(l.host.chans[ch].periodic, IndexOf(l.host.chans[ch].periodic, id));
  }

  // ---- the same with every command and answer as text ----

  /** A call, the numbers its command and the close of a failed Connect get, and the payload. */
  datatype Exchange = Exchange(call: Call, number: u32, closing: u32, payload: seq<byte>)

  /** A command printed and numbered, handled by the cable, its answer parsed and taken by the slot. */
  function Exchanged(c: Cable, k: Commands.Command, number: u32, payload: seq<byte>): (Cable, Answer)
  {
    match Handle(c, Commands.SentHead(k, number), payload)
    case Elsewhere => (c, TIMEOUT)
    case Handled(c', text) =>
      var s := Slots.Stash(WaitingFor(k, number), Proto.Parse(text).reply);
      (c', if s.valid then HostAnswer(s.reply) else TIMEOUT)
  }

  function WireStep(l: Link, x: Exchange): (l': Link)
    requires |l.host.chans| == CHANNELS
    ensures |l'.host.chans| == CHANNELS
  {
    if Check(l.host, x.call) != STATUS_NOERROR then l
    else
      var (cable, answer) := Exchanged(l.cable, CommandOf(l.host, x.call), x.number, x.payload);
      var undone := if x.call.Connect? && !answer.Refused? && !x.call.memory
                    then Exchanged(cable, Commands.Close(ProtocolChannel(x.call.protocol)), x.closing, []).0 else cable;
      Link(Do(l.host, x.call, answer), undone)
  }

  predicate Exchangeable(x: Exchange)
  {
    && x.number >= Slots.SEQ_FIRST && x.closing >= Slots.SEQ_FIRST
    && |x.payload| == if x.call.StartPeriodic? then x.call.message.size else 0
  }

  lemma TextCarries(c: Cable, k: Commands.Command, number: u32, payload: seq<byte>)
    requires OfSession(k) && Commands.Encodable(k) && |payload| == Commands.PayloadLength(k) && number >= Slots.SEQ_FIRST
    ensures Exchanged(c, k, number, payload) == Execute(c, k)
  {
    hide Handle, Proto.Parse, Slots.Stash, AnswerLine, HostAnswer, Execute;
    LineExecutes(c, k, number, payload);
    AnswerArrives(c, k, number);
  }

  /** Going through text changes nothing. */
  lemma WireStepIsStep(l: Link, x: Exchange)
    requires |l.host.chans| == CHANNELS && Exchangeable(x)
    ensures WireStep(l, x) == Step(l, x.call, Answered, Answered)
  {
    hide Exchanged, Execute, Check, Do;
    if Check(l.host, x.call) == STATUS_NOERROR {
      var k := CommandOf(l.host, x.call);
      TextCarries(l.cable, k, x.number, x.payload);
      if x.call.Connect? {
        TextCarries(Execute(l.cable, k).0, Commands.Close(k.ch), x.closing, []);
      }
    }
  }

  /** What a call asks for is what the cable does, over text as well: a channel is opened with the flags and the
      rate of its Connect, and a message repeated at its interval, in microseconds, with its flags. */
  lemma CallReachesCable(l: Link, x: Exchange)
    requires |l.host.chans| == CHANNELS && Exchangeable(x) && Agree(l) && LineInv(l.host)
    requires Check(l.host, x.call) == STATUS_NOERROR
    ensures var l' := WireStep(l, x);
            match x.call
            case Connect(protocol, flags, baud, memory) =>
              var ch := ProtocolChannel(protocol);
              memory ==> ch in l'.cable.channels && l'.cable.channels[ch] == CableChan(flags, baud, map[])
            case StartPeriodic(ch, message, interval) =>
              && ch in l.cable.channels && ch in l'.cable.channels
              && l'.cable.channels[ch].periodic
                 == l.cable.channels[ch].periodic[l.cable.nextId := Repeat(interval * 1000, message.txFlags)]
            case _ => true
  {
    hide WireStep;
    WireStepIsStep(l, x);
    if !x.call.SetVoltage? { ChecksSuffice(l, x.call); }
  }

  function WireRun(l: Link, xs: seq<Exchange>): (l': Link)
    requires |l.host.chans| == CHANNELS
    ensures |l'.host.chans| == CHANNELS
  {
    if xs == [] then l else WireStep(WireRun(l, xs[..|xs| - 1]), xs[|xs| - 1])
  }

  function CallsOf(xs: seq<Exchange>): seq<Call> { seq(|xs|, i requires 0 <= i < |xs| => xs[i].call) }

  lemma {:induction false} WireRunIsRun(l: Link, xs: seq<Exchange>)
    requires |l.host.chans| == CHANNELS && forall i | 0 <= i < |xs| :: Exchangeable(xs[i])
    ensures WireRun(l, xs) == AnsweredRun(l, CallsOf(xs))
  {
    hide WireStep, Step;
    if xs != [] {
      var n := |xs| - 1;
      WireRunIsRun(l, xs[..n]);
      WireStepIsStep(WireRun(l, xs[..n]), xs[n]);
      assert CallsOf(xs)[..n] == CallsOf(xs[..n]);
    }
  }

  /** The agreement of the two ends, with every command and every answer going over as text. */
  lemma TextKeepsAgreement(nextId: nat, xs: seq<Exchange>)
    requires forall i | 0 <= i < |xs| :: Exchangeable(xs[i])
    requires WireRun(Link(FRESH, Cable(map[], nextId)), xs).cable.nextId <= U32_MAX
    ensures var l := WireRun(Link(FRESH, Cable(map[], nextId)), xs);
            Agree(l) && forall ch <- l.cable.channels :: |l.cable.channels[ch].periodic| <= PERIODIC_MAX
  {
    hide WireRun, AnsweredRun, Agree, Check, Execute;
    WireRunIsRun(Link(FRESH, Cable(map[], nextId)), xs);
    HostAndCableAgree(nextId, CallsOf(xs), Disconnect(0));
  }
}
