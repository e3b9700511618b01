/** The J2534 session's bookkeeping of channels, lines, pins and periodic messages, over every sequence
    of calls and every answer of the device. Calls are sequential. */
module Sessions {
  import opened Bytes
  import opened Channels
  import Proto

  const PERIODIC_MAX: nat := 10
  const PIN_K: u32 := 7
  const PIN_L: u32 := 15
  const VOLTAGE_OFF: u32 := 0xFFFF_FFFF
  const SHORT_TO_GROUND: u32 := 0xFFFF_FFFE

  const STATUS_NOERROR: u32 := 0
  const ERR_INVALID_CHANNEL_ID: u32 := 2
  const ERR_INVALID_PROTOCOL_ID: u32 := 3
  const ERR_NULL_PARAMETER: u32 := 4
  const ERR_FAILED: u32 := 7
  const ERR_INVALID_MSG: u32 := 10
  const ERR_INVALID_TIME_INTERVAL: u32 := 11
  const ERR_EXCEEDED_LIMIT: u32 := 12
  const ERR_INVALID_MSG_ID: u32 := 13
  const ERR_PIN_INVALID: u32 := 19
  const ERR_CHANNEL_IN_USE: u32 := 20
  const ERR_MSG_PROTOCOL_ID: u32 := 21
  const ERR_INVALID_BAUDRATE: u32 := 25
  const ERR_INVALID_DEVICE_ID: u32 := 26

  const DEVICE_ID: u32 := 1
  /** The longest interval the firmware's microseconds can carry, in milliseconds. */
  const INTERVAL_MAX: u32 := U32_MAX / 1000

  /** What the session keeps of a channel. */
  datatype HostChan = HostChan(open: bool, protocol: u32, periodic: seq<u32>)

  const CLOSED := HostChan(false, 0, [])

  /** The session. The pin masks are the sets of their bits. */
  datatype Host = Host(chans: seq<HostChan>, grounded: set<nat>, powered: set<nat>)

  /** A return code other than STATUS_NOERROR. */
  type ErrorCode = c: u32 | c > 0 witness 7

  /** What simple_cmd comes to: an error, or a reply, `arm` replies with their id. */
  datatype Answer = Refused(code: ErrorCode) | Okay | PeriodicId(id: u32)

  /** The other channel on the same line, or -1. */
  function Partner(ch: int): int
  {
    if ch == 3 then 4 else if ch == 4 then 3 else if ch == 7 then 8 else if ch == 8 then 7 else -1
  }

  /** protocol_uses_pin. */
  predicate UsesPin(protocol: u32, pin: int)
  {
    var ch := ProtocolChannel(protocol);
    if ch == 3 || ch == 4 then pin == PIN_K else if ch == 7 || ch == 8 then pin == PIN_L else false
  }

  /** An `atv` the device accepted. */
  datatype PinSetting = PinSetting(pin: u32, value: u32)

  /** What such a command makes of the masks; pins from 32 on are not tracked. */
  function SetPin(masks: (set<nat>, set<nat>), s: PinSetting): (set<nat>, set<nat>)
  {
    if s.pin >= 32 then masks
    else (masks.0 - {s.pin as nat} + (if s.value == SHORT_TO_GROUND then {s.pin as nat} else {}),
          masks.1 - {s.pin as nat} + (if s.value != SHORT_TO_GROUND && s.value != VOLTAGE_OFF then {s.pin as nat} else {}))
  }

  function Replay(masks: (set<nat>, set<nat>), settings: seq<PinSetting>): (set<nat>, set<nat>)
    decreases |settings|
  {
    if settings == [] then masks else Replay(SetPin(masks, settings[0]), settings[1..])
  }

  // ---- the checks before a command is sent ----

  /** The checks of PassThruConnect. */
  function ConnectCheck(h: Host, protocol: u32, baud: u32): u32
    requires |h.chans| == CHANNELS
  {
    var fw := ProtocolChannel(protocol);
    if fw < 0 then ERR_INVALID_PROTOCOL_ID
    else if h.chans[fw].open then ERR_CHANNEL_IN_USE
    else if Partner(fw) >= 0 && h.chans[Partner(fw)].open then ERR_CHANNEL_IN_USE
    else if baud == 0 then ERR_INVALID_BAUDRATE
    else if exists pin <- h.grounded :: UsesPin(protocol, pin) then ERR_CHANNEL_IN_USE
    else STATUS_NOERROR
  }

  /** The checks of PassThruSetProgrammingVoltage. */
  function VoltageCheck(h: Host, pin: u32, value: u32): u32
    requires |h.chans| == CHANNELS
  {
    if value != VOLTAGE_OFF && value != SHORT_TO_GROUND && pin < 32 && h.powered - {pin as nat} != {} then ERR_PIN_INVALID
    else if value == SHORT_TO_GROUND && exists i | 0 <= i < CHANNELS :: h.chans[i].open && UsesPin(h.chans[i].protocol, pin)
    then ERR_CHANNEL_IN_USE
    else STATUS_NOERROR
  }

  /** A message as far as its size and protocol are checked. */
  datatype Outgoing = Outgoing(protocol: u32, txFlags: u32, size: u32)

  /** msg_ok: section 7.2.6 and Figure 42 of SAE J2534-1. */
  function MessageCheck(channelProtocol: u32, m: Outgoing): u32
  {
    var base, ext := ProtocolBase(channelProtocol), HasBit(m.txFlags, 0x80);
    var (lo, hi) := if base == CAN then (4, 12)
                    else if base == ISO15765 then (if ext then (5, 4100) else (4, 4099))
                    else (1, Proto.MSG_MAX);
    if ProtocolBase(m.protocol) != base then ERR_MSG_PROTOCOL_ID
    else if m.size < lo || m.size > hi then ERR_INVALID_MSG
    else STATUS_NOERROR
  }

  predicate IsOpen(h: Host, ch: u32)
  {
    ch < |h.chans| && h.chans[ch].open
  }

  function IndexOf(ids: seq<u32>, id: u32): (i: nat)
    ensures i <= |ids| && (i < |ids| ==> ids[i] == id) && id !in ids[..i]
  {
    if ids == [] || ids[0] == id then 0 else 1 + IndexOf(ids[1..], id)
  }

  /** `c->periodic[slot] = c->periodic[--c->nperiodic]`. */
  function Forget(ids: seq<u32>, slot: nat): (r: seq<u32>)
    requires slot < |ids|
    ensures |r| == |ids| - 1
  {
    ids[slot := ids[|ids| - 1]][..|ids| - 1]
  }

  // ---- the calls, on values ----

  /** A call, as far as it concerns this bookkeeping. `memory` is whether a receive queue could be had. */
  datatype Call =
    | Connect(protocol: u32, flags: u32, baud: u32, memory: bool)
    | Disconnect(ch: u32)
    | SetVoltage(pin: u32, value: u32)
    | StartPeriodic(ch: u32, message: Outgoing, interval: u32)
    | StopPeriodic(ch: u32, id: u32)
    | ClearPeriodic(ch: u32)

  /** The code the call fails with before anything is sent, or STATUS_NOERROR. */
  function Check(h: Host, call: Call): u32
    requires |h.chans| == CHANNELS
  {
    match call
    case Connect(protocol, _, baud, _) => ConnectCheck(h, protocol, baud)
    case Disconnect(ch) => if IsOpen(h, ch) then STATUS_NOERROR else ERR_INVALID_CHANNEL_ID
    case SetVoltage(pin, value) => VoltageCheck(h, pin, value)
    case StartPeriodic(ch, message, interval) =>
      if !IsOpen(h, ch) then ERR_INVALID_CHANNEL_ID
      else if interval == 0 || interval > INTERVAL_MAX then ERR_INVALID_TIME_INTERVAL
      else if MessageCheck(h.chans[ch].protocol, message) != STATUS_NOERROR then MessageCheck(h.chans[ch].protocol, message)
      else if |h.chans[ch].periodic| >= PERIODIC_MAX then ERR_EXCEEDED_LIMIT
      else STATUS_NOERROR
    case StopPeriodic(ch, id) =>
      if !IsOpen(h, ch) then ERR_INVALID_CHANNEL_ID
      else if id !in h.chans[ch].periodic then ERR_INVALID_MSG_ID
      else STATUS_NOERROR
    case ClearPeriodic(ch) => if IsOpen(h, ch) then STATUS_NOERROR else ERR_INVALID_CHANNEL_ID
  }

  function PutPeriodic(h: Host, ch: nat, ids: seq<u32>): Host
    requires ch < |h.chans|
  {
    h.(chans := h.chans[ch := h.chans[ch].(periodic := ids)])
  }

  /** What the call does once its command has come to `answer`. */
  function After(h: Host, call: Call, answer: Answer): Host
    requires |h.chans| == CHANNELS && Check(h, call) == STATUS_NOERROR
  {
    match call
    case Connect(protocol, _, _, memory) =>
      if answer.Refused? || !memory then h
      else h.(chans := h.chans[ProtocolChannel(protocol) := HostChan(true, protocol, [])])
    case Disconnect(ch) =>
      h.(chans := h.chans[ch := h.chans[ch].(open := false, periodic := [])])
    case SetVoltage(pin, value) =>
      if answer.Refused? then h
      else var (g, p) := SetPin((h.grounded, h.powered), PinSetting(pin, value)); h.(grounded := g, powered := p)
    case StartPeriodic(ch, _, _) =>
      if answer.PeriodicId? then PutPeriodic(h, ch, h.chans[ch].periodic + [answer.id]) else h
    case StopPeriodic(ch, id) =>
      if answer.Refused? && answer.code != ERR_INVALID_MSG_ID then h
      else PutPeriodic(h, ch, Forget(h.chans[ch].periodic, IndexOf(h.chans[ch].periodic, id)))
    case ClearPeriodic(ch) => if answer.Refused? then h else PutPeriodic(h, ch, [])
  }

  function Do(h: Host, call: Call, answer: Answer): (h': Host)
    requires |h.chans| == CHANNELS
    ensures |h'.chans| == CHANNELS
  {
    if Check(h, call) == STATUS_NOERROR then After(h, call, answer) else h
  }

  /** What the call returns. */
  function ReturnCode(h: Host, call: Call, answer: Answer): u32
    requires |h.chans| == CHANNELS
  {
    if Check(h, call) != STATUS_NOERROR then Check(h, call)
    else if answer.Refused? then answer.code
    else if (call.Connect? && !call.memory) || (call.StartPeriodic? && !answer.PeriodicId?) then ERR_FAILED
    else STATUS_NOERROR
  }

  const FRESH := Host(seq(CHANNELS, _ => CLOSED), {}, {})

  /** The pin settings a call gets accepted. */
  function Accepted(h: Host, call: Call, answer: Answer): seq<PinSetting>
    requires |h.chans| == CHANNELS
  {
    if call.SetVoltage? && Check(h, call) == STATUS_NOERROR && !answer.Refused?
    then [PinSetting(call.pin, call.value)] else []
  }

  // ---- the invariant ----

  ghost predicate LineInv(h: Host)
    requires |h.chans| == CHANNELS
  {
    && (forall i | 0 <= i < CHANNELS :: h.chans[i].open ==> ProtocolChannel(h.chans[i].protocol) == i)
    && !(h.chans[3].open && h.chans[4].open) && !(h.chans[7].open && h.chans[8].open)
    && (forall i | 0 <= i < CHANNELS :: |h.chans[i].periodic| <= PERIODIC_MAX)
  }

  /** Section 7.2.11 of SAE J2534-1: one pin at a time has voltage, ground excepted. */
  ghost predicate PinInv(h: Host)
    requires |h.chans| == CHANNELS
  {
    && (forall a, b | a in h.powered && b in h.powered :: a == b)
    && h.grounded !! h.powered && (forall p | p in h.grounded || p in h.powered :: p < 32)
    && (forall i, pin | 0 <= i < CHANNELS && pin in h.grounded :: h.chans[i].open ==> !UsesPin(h.chans[i].protocol, pin))
  }

  /** A message is sent exactly when it is of its channel's protocol and its data, behind the CAN id and the
      extended address where it has them, is what one such message can carry: the 8 bytes of a CAN frame, the
      12-bit length of ISO 15765-2, or, on a K or L line, anything that fits a message and is not empty. */
  lemma MessageIsSentIff(channelProtocol: u32, m: Outgoing)
    ensures var base := ProtocolBase(channelProtocol);
            var header := if base == CAN then 4 else if base == ISO15765 then (if HasBit(m.txFlags, 0x80) then 5 else 4) else 0;
            MessageCheck(channelProtocol, m) == STATUS_NOERROR
            <==> ProtocolBase(m.protocol) == base && header <= m.size
                 && var data := m.size - header;
                    if base == CAN then data <= 8 else if base == ISO15765 then data < 0x1000 else 1 <= data <= 4128
    ensures MessageCheck(channelProtocol, m) == ERR_MSG_PROTOCOL_ID <==> ProtocolBase(m.protocol) != ProtocolBase(channelProtocol)
    ensures MessageCheck(channelProtocol, m) in {STATUS_NOERROR, ERR_MSG_PROTOCOL_ID, ERR_INVALID_MSG}
  {
  }

  lemma CallKeepsLines(h: Host, call: Call, answer: Answer)
    requires |h.chans| == CHANNELS && LineInv(h)
    ensures LineInv(Do(h, call, answer))
  {
  }

  lemma CallKeepsPins(h: Host, call: Call, answer: Answer)
    requires |h.chans| == CHANNELS && PinInv(h)
    ensures PinInv(Do(h, call, answer))
  {
  }

  /** The calls of a session and what each came to. */
  function DoAll(h: Host, calls: seq<(Call, Answer)>): (h': Host)
    requires |h.chans| == CHANNELS
    ensures |h'.chans| == CHANNELS
    decreases |calls|
  {
    if calls == [] then h else DoAll(Do(h, calls[0].0, calls[0].1), calls[1..])
  }

  function SettingsOf(h: Host, calls: seq<(Call, Answer)>): seq<PinSetting>
    requires |h.chans| == CHANNELS
    decreases |calls|
  {
    if calls == [] then []
    else Accepted(h, calls[0].0, calls[0].1) + SettingsOf(Do(h, calls[0].0, calls[0].1), calls[1..])
  }

  lemma {:induction false} EveryRun(h: Host, calls: seq<(Call, Answer)>)
    requires |h.chans| == CHANNELS && LineInv(h) && PinInv(h)
    ensures LineInv(DoAll(h, calls)) && PinInv(DoAll(h, calls))
    ensures (DoAll(h, calls).grounded, DoAll(h, calls).powered) == Replay((h.grounded, h.powered), SettingsOf(h, calls))
    decreases |calls|
  {
    hide LineInv, PinInv, SetPin;
    if calls != [] {
      var call, answer := calls[0].0, calls[0].1;
      CallKeepsLines(h, call, answer);
      CallKeepsPins(h, call, answer);
      CallReplays(h, call, answer);
      EveryRun(Do(h, call, answer), calls[1..]);
      var more := SettingsOf(Do(h, call, answer), calls[1..]);
      ReplayAppends((h.grounded, h.powered), Accepted(h, call, answer), more);
    }
  }

  lemma {:induction false} ReplayAppends(masks: (set<nat>, set<nat>), a: seq<PinSetting>, b: seq<PinSetting>)
    ensures Replay(masks, a + b) == Replay(Replay(masks, a), b)
    decreases |a|
  {
    hide SetPin;
    if a == [] {
      assert a + b == b;
    } else {
      ReplayAppends(SetPin(masks, a[0]), a[1..], b);
      assert (a + b)[1..] == a[1..] + b;
    }
  }

  lemma CallReplays(h: Host, call: Call, answer: Answer)
    requires |h.chans| == CHANNELS
    ensures var now := Do(h, call, answer);
            (now.grounded, now.powered) == Replay((h.grounded, h.powered), Accepted(h, call, answer))
  {
    hide SetPin;
    var masks := (h.grounded, h.powered);
    if call.SetVoltage? {
      var setting := PinSetting(call.pin, call.value);
      assert [setting][1..] == [];
      assert Replay(masks, [setting]) == SetPin(masks, setting);
    }
  }

  /** One call leaves the pins as they were, except that an accepted setting of a tracked pin grounds it, powers
      it, or does neither. */
  lemma CallMasks(h: Host, call: Call, answer: Answer)
    requires |h.chans| == CHANNELS
    ensures var now := Do(h, call, answer);
            var sets := call.SetVoltage? && Check(h, call) == STATUS_NOERROR && !answer.Refused?;
            forall pin: nat ::
              if sets && pin == call.pin < 32 then
                (pin in now.grounded <==> call.value == SHORT_TO_GROUND)
                && (pin in now.powered <==> call.value !in {SHORT_TO_GROUND, VOLTAGE_OFF})
              else (pin in now.grounded <==> pin in h.grounded) && (pin in now.powered <==> pin in h.powered)
  {
  }

  // ---- the masks from the history ----

  /** Whether the last of the settings for a pin is the k-th. */
  ghost predicate IsLast(settings: seq<PinSetting>, pin: nat, k: nat)
  {
    k < |settings| && settings[k].pin == pin && forall j | k < j < |settings| :: settings[j].pin != pin
  }

  /** The pin's last setting grounds it, or puts a voltage on it. */
  ghost predicate LastGrounds(settings: seq<PinSetting>, pin: nat)
  {
    exists k: nat :: IsLast(settings, pin, k) && settings[k].value == SHORT_TO_GROUND
  }

  ghost predicate LastPowers(settings: seq<PinSetting>, pin: nat)
  {
    exists k: nat :: IsLast(settings, pin, k) && settings[k].value != SHORT_TO_GROUND && settings[k].value != VOLTAGE_OFF
  }

  lemma LastAppends(settings: seq<PinSetting>, s: PinSetting, pin: nat)
    ensures LastGrounds(settings + [s], pin)
       <==> if s.pin == pin then s.value == SHORT_TO_GROUND else LastGrounds(settings, pin)
    ensures LastPowers(settings + [s], pin)
       <==> if s.pin == pin then s.value != SHORT_TO_GROUND && s.value != VOLTAGE_OFF else LastPowers(settings, pin)
  {
    var all := settings + [s];
    assert s.pin == pin ==> IsLast(all, pin, |settings|);
    forall k: nat ensures IsLast(all, pin, k) <==> if s.pin == pin then k == |settings| else IsLast(settings, pin, k) {
      assert forall j | 0 <= j < |settings| :: all[j] == settings[j];
      if IsLast(all, pin, k) && k < |settings| {
        assert all[|settings|].pin != pin;
        forall j | k < j < |settings| ensures settings[j].pin != pin { assert all[j].pin != pin; }
      }
    }
  }

  /** A replay's masks hold the pins whose last setting says so. */
  lemma {:induction false} ReplayIsLast(settings: seq<PinSetting>, pin: nat)
    ensures var masks := Replay(({}, {}), settings);
            && (pin in masks.0 <==> pin < 32 && LastGrounds(settings, pin))
            && (pin in masks.1 <==> pin < 32 && LastPowers(settings, pin))
  {
    hide LastGrounds, LastPowers;
    if settings == [] {
      NothingLast(pin);
    } else {
      var n := |settings| - 1;
      var before, s := settings[..n], settings[n];
      ReplayIsLast(before, pin);
      assert settings == before + [s];
      ReplayAppends(({}, {}), before, [s]);
      ReplayOne(Replay(({}, {}), before), s);
      LastAppends(before, s, pin);
    }
  }

  lemma NothingLast(pin: nat)
    ensures !LastGrounds([], pin) && !LastPowers([], pin)
  {
  }

  lemma ReplayOne(masks: (set<nat>, set<nat>), s: PinSetting)
    ensures Replay(masks, [s]) == SetPin(masks, s)
  {
    assert [s][1..] == [];
  }

  /** Over every sequence of calls since open and every answer of the device: at most one tracked pin is
      powered, none is powered and grounded, a tracked pin is grounded exactly when the last setting the device
      accepted for it grounds it, and powered exactly when that put a voltage on it, no open
      channel's line is grounded, the two lines carry one channel each, and every open channel has a
      protocol of its own. */
  lemma SessionInvariants(calls: seq<(Call, Answer)>)
    ensures var h, settings := DoAll(FRESH, calls), SettingsOf(FRESH, calls);
            && LineInv(h) && PinInv(h)
            && (forall pin: nat :: pin in h.grounded <==> pin < 32 && LastGrounds(settings, pin))
            && (forall pin: nat :: pin in h.powered <==> pin < 32 && LastPowers(settings, pin))
  {
    hide DoAll, SettingsOf, Replay, LastGrounds, LastPowers, LineInv, PinInv;
    assert LineInv(FRESH) && PinInv(FRESH) by { FreshIsSafe(); }
    EveryRun(FRESH, calls);
    forall pin: nat
      ensures pin in DoAll(FRESH, calls).grounded <==> pin < 32 && LastGrounds(SettingsOf(FRESH, calls), pin)
      ensures pin in DoAll(FRESH, calls).powered <==> pin < 32 && LastPowers(SettingsOf(FRESH, calls), pin)
    {
      ReplayIsLast(SettingsOf(FRESH, calls), pin);
    }
  }

  lemma FreshIsSafe()
    ensures LineInv(FRESH) && PinInv(FRESH)
  {
  }

  /** So, over every run, a voltage on a tracked pin is refused for the pins alone exactly when the last setting
      accepted for another pin put a voltage there: switching the one powered pin off frees all the others. */
  lemma PinRefusedIff(calls: seq<(Call, Answer)>, pin: u32, value: u32)
    ensures var settings := SettingsOf(FRESH, calls);
            Check(DoAll(FRESH, calls), SetVoltage(pin, value)) == ERR_PIN_INVALID
            <==> value != VOLTAGE_OFF && value != SHORT_TO_GROUND && pin < 32
                 && exists other: nat :: other < 32 && other != pin && LastPowers(settings, other)
  {
    hide DoAll, SettingsOf, LastGrounds, LastPowers, LineInv, PinInv;
    SessionInvariants(calls);
    var h, settings := DoAll(FRESH, calls), SettingsOf(FRESH, calls);
    if h.powered - {pin as nat} != {} {
      var other :| other in h.powered - {pin as nat};
      assert other < 32 && LastPowers(settings, other);
    }
    if other: nat :| other < 32 && other != pin && LastPowers(settings, other) {
      assert other in h.powered - {pin as nat};
    }
  }

  /** And grounding a pin is refused exactly while an open channel's line runs on it. */
  lemma GroundRefusedIff(calls: seq<(Call, Answer)>, pin: u32)
    ensures var h := DoAll(FRESH, calls);
            Check(h, SetVoltage(pin, SHORT_TO_GROUND)) != STATUS_NOERROR
            <==> exists i :: 0 <= i < CHANNELS && h.chans[i].open && LineOf(i) == pin < 32
  {
    hide DoAll, SettingsOf, LastGrounds, LastPowers, PinInv;
    SessionInvariants(calls);
    var h := DoAll(FRESH, calls);
    assert forall i | 0 <= i < CHANNELS && h.chans[i].open :: UsesPin(h.chans[i].protocol, pin) <==> LineOf(i) == pin < 32;
  }

  /** What a protocol needs for itself: the line of its channel. */
  function LineOf(ch: nat): nat
  {
    if ch in {3, 4} then PIN_K else if ch in {7, 8} then PIN_L else 100 + ch
  }

  /** Over every run, a Connect is sent exactly when the protocol is one the device has, the rate is not 0, its
      line carries no channel, and the last setting accepted for that line's pin does not ground it. */
  lemma ConnectIsSentIff(calls: seq<(Call, Answer)>, protocol: u32, flags: u32, baud: u32, memory: bool)
    ensures var h, settings, ch := DoAll(FRESH, calls), SettingsOf(FRESH, calls), ProtocolChannel(protocol);
            Check(h, Connect(protocol, flags, baud, memory)) == STATUS_NOERROR
            <==> ch >= 0 && baud > 0
                 && (forall i | 0 <= i < CHANNELS :: h.chans[i].open ==> LineOf(i) != LineOf(ch))
                 && !(LineOf(ch) < 32 && LastGrounds(settings, LineOf(ch)))
  {
    hide DoAll, SettingsOf, LastGrounds, LastPowers, LineInv, PinInv;
    SessionInvariants(calls);
    var h, ch := DoAll(FRESH, calls), ProtocolChannel(protocol);
    if ch >= 0 {
      assert forall pin: nat :: UsesPin(protocol, pin) <==> LineOf(ch) < 32 && pin == LineOf(ch);
    }
  }

  // ---- in place ----

  class Session {
    var open: bool
    var chans: seq<HostChan>
    var grounded: set<nat>
    var powered: set<nat>

    constructor ()
      ensures open && Abs() == FRESH
    {
      open, chans, grounded, powered := true, seq(CHANNELS, _ => CLOSED), {}, {};
    }

    function Abs(): Host
      reads this
    {
      Host(chans, grounded, powered)
    }

    /** What an entry point does and returns that demands an open device, this device's id where it takes
        one, and non-null pointers, and otherwise comes to `call`. */
    twostate predicate Handles(device: u32, pointers: bool, call: Call, answer: Answer, rc: u32)
      requires |old(chans)| == CHANNELS
      reads this
    {
      if !old(open) || device != DEVICE_ID then Abs() == old(Abs()) && rc == ERR_INVALID_DEVICE_ID
      else if !pointers then Abs() == old(Abs()) && rc == ERR_NULL_PARAMETER
      else Abs() == Do(old(Abs()), call, answer) && rc == ReturnCode(old(Abs()), call, answer)
    }

    /** PassThruConnect: `answer` is what the `ato` comes to, `pointer` whether pChannelID is one. */
    method PassThruConnect(device: u32, protocol: u32, flags: u32, baud: u32, pointer: bool, answer: Answer, memory: bool)
      returns (rc: u32, id: nat)
      requires |chans| == CHANNELS && forall pin <- grounded :: pin < 32
      modifies this`chans
      ensures Handles(device, pointer, Connect(protocol, flags, baud, memory), answer, rc)
      ensures rc == STATUS_NOERROR ==> id < CHANNELS && chans[id] == HostChan(true, protocol, [])
    {
      id := 0;
      if !open || device != DEVICE_ID { return ERR_INVALID_DEVICE_ID, 0; }
      if !pointer { return ERR_NULL_PARAMETER, 0; }
      var fw := ProtocolChannel(protocol);
      if fw < 0 { return ERR_INVALID_PROTOCOL_ID, 0; }
      if chans[fw].open { return ERR_CHANNEL_IN_USE, 0; }
      var partner := Partner(fw);
      if partner >= 0 && chans[partner].open { return ERR_CHANNEL_IN_USE, 0; }
      if baud == 0 { return ERR_INVALID_BAUDRATE, 0; }
      var pin := 0;
      while pin < 32
        invariant 0 <= pin <= 32 && forall p | 0 <= p < pin :: p in grounded ==> !UsesPin(protocol, p)
      {
        if pin in grounded && UsesPin(protocol, pin) { return ERR_CHANNEL_IN_USE, 0; }
        pin := pin + 1;
      }
      if answer.Refused? { return answer.code, 0; }
      if !memory { return ERR_FAILED, 0; }
      chans := chans[fw := HostChan(true, protocol, [])];
      return STATUS_NOERROR, fw;
    }

    /** PassThruDisconnect: the host forgets the channel whatever the answer. */
    method PassThruDisconnect(ch: u32, answer: Answer) returns (rc: u32)
      requires |chans| == CHANNELS
      modifies this`chans
      ensures Handles(DEVICE_ID, true, Disconnect(ch), answer, rc)
    {
      if !open { return ERR_INVALID_DEVICE_ID; }
      if ch >= CHANNELS || !chans[ch].open { return ERR_INVALID_CHANNEL_ID; }
      chans := chans[ch := chans[ch].(open := false, periodic := [])];
      return if answer.Refused? then answer.code else STATUS_NOERROR;
    }

    /** PassThruSetProgrammingVoltage. */
    method PassThruSetProgrammingVoltage(device: u32, pin: u32, value: u32, answer: Answer) returns (rc: u32)
      requires |chans| == CHANNELS
      modifies this`grounded, this`powered
      ensures Handles(device, true, SetVoltage(pin, value), answer, rc)
      ensures rc != STATUS_NOERROR || pin >= 32 ==> grounded == old(grounded) && powered == old(powered)
      ensures rc == STATUS_NOERROR && pin < 32 ==>
                && (pin in grounded <==> value == SHORT_TO_GROUND)
                && (pin in powered <==> value != SHORT_TO_GROUND && value != VOLTAGE_OFF)
                && grounded - {pin as nat} == old(grounded) - {pin as nat} && powered - {pin as nat} == old(powered) - {pin as nat}
    {
      if !open || device != DEVICE_ID { return ERR_INVALID_DEVICE_ID; }
      if value != VOLTAGE_OFF && value != SHORT_TO_GROUND && pin < 32 && powered - {pin as nat} != {} {
        return ERR_PIN_INVALID;
      }
      if value == SHORT_TO_GROUND {
        for i := 0 to CHANNELS
          invariant forall k | 0 <= k < i :: !(chans[k].open && UsesPin(chans[k].protocol, pin))
        {
          if chans[i].open && UsesPin(chans[i].protocol, pin) { return ERR_CHANNEL_IN_USE; }
        }
      }
      if answer.Refused? { return answer.code; }
      if pin < 32 {
        grounded, powered := grounded - {pin as nat}, powered - {pin as nat};
        if value == SHORT_TO_GROUND {
          grounded := grounded + {pin as nat};
        } else if value != VOLTAGE_OFF {
          powered := powered + {pin as nat};
        }
      }
      return STATUS_NOERROR;
    }

    /** PassThruStartPeriodicMsg: `pointers` is whether pMsg and pMsgID are some. */
    method PassThruStartPeriodicMsg(ch: u32, message: Outgoing, pointers: bool, interval: u32, answer: Answer)
      returns (rc: u32, id: u32)
      requires |chans| == CHANNELS
      modifies this`chans
      ensures Handles(DEVICE_ID, pointers, StartPeriodic(ch, message, interval), answer, rc)
      ensures rc == STATUS_NOERROR ==> answer.PeriodicId? && id == answer.id
    {
      id := 0;
      if !open { return ERR_INVALID_DEVICE_ID, 0; }
      if !pointers { return ERR_NULL_PARAMETER, 0; }
      if ch >= CHANNELS || !chans[ch].open { return ERR_INVALID_CHANNEL_ID, 0; }
      if interval == 0 || interval > INTERVAL_MAX { return ERR_INVALID_TIME_INTERVAL, 0; }
      var bad := MessageCheck(chans[ch].protocol, message);
      if bad != STATUS_NOERROR { return bad, 0; }
      if |chans[ch].periodic| >= PERIODIC_MAX { return ERR_EXCEEDED_LIMIT, 0; }
      match answer
      case Refused(code) => return code, 0;
      case Okay => return ERR_FAILED, 0;
      case PeriodicId(n) =>
        chans := chans[ch := chans[ch].(periodic := chans[ch].periodic + [n])];
        return STATUS_NOERROR, n;
    }

    /** PassThruStopPeriodicMsg. */
    method PassThruStopPeriodicMsg(ch: u32, id: u32, answer: Answer) returns (rc: u32)
      requires |chans| == CHANNELS
      modifies this`chans
      ensures Handles(DEVICE_ID, true, StopPeriodic(ch, id), answer, rc)
    {
      if !open { return ERR_INVALID_DEVICE_ID; }
      if ch >= CHANNELS || !chans[ch].open { return ERR_INVALID_CHANNEL_ID; }
      var ids, i := chans[ch].periodic, 0;
      while i < |ids| && ids[i] != id
        invariant i <= |ids| && id !in ids[..i]
      {
        i := i + 1;
      }
      if i == |ids| { assert ids[..i] == ids; return ERR_INVALID_MSG_ID; }
      FirstIndex(ids, id, i);
      if !answer.Refused? || answer.code == ERR_INVALID_MSG_ID {
        chans := chans[ch := chans[ch].(periodic := Forget(ids, i))];
      }
      return if answer.Refused? then answer.code else STATUS_NOERROR;
    }

    /** CLEAR_PERIODIC_MSGS. */
    method ClearPeriodicMsgs(ch: u32, answer: Answer) returns (rc: u32)
      requires |chans| == CHANNELS
      modifies this`chans
      ensures Handles(DEVICE_ID, true, ClearPeriodic(ch), answer, rc)
    {
      if !open { return ERR_INVALID_DEVICE_ID; }
      if ch >= CHANNELS || !chans[ch].open { return ERR_INVALID_CHANNEL_ID; }
      if answer.Refused? { return answer.code; }
      chans := chans[ch := chans[ch].(periodic := [])];
      return STATUS_NOERROR;
    }
  }

  lemma {:induction false} FirstIndex(ids: seq<u32>, id: u32, i: nat)
    requires i < |ids| && ids[i] == id && id !in ids[..i]
    ensures IndexOf(ids, id) == i && id in ids
  {
    if i > 0 {
      assert ids[0] == ids[..i][0];
      assert ids[1..][..i - 1] == ids[..i][1..];
      FirstIndex(ids[1..], id, i - 1);
    }
  }
}
