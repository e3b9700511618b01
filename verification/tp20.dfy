/** VW TP2.0 messages over raw CAN frames: cut into data frames by one end, put together by the other.
    The tester is tools/car/car_capture.py, the module the simulator's. */
module Tp20 {
  import opened Bytes
  import Sender

  const CHUNK: nat := 7
  const LEN_MAX: nat := 0xFFFF
  /** The tester takes the length's top bit for a mark. */
  const ANSWER_MAX: nat := 0x7FFF

  /** The message behind its 16-bit length; a module sets the length's top bit on responsePending. */
  function Framed(msg: seq<byte>, mark: bool): seq<byte>
    requires |msg| <= LEN_MAX && (mark ==> |msg| <= ANSWER_MAX)
  {
    [|msg| / 0x100 + (if mark then 0x80 else 0), |msg| % 0x100] + msg
  }

  /** One data frame: opcode and running number, then the chunk. The last one asks for an ACK. */
  function DataFrame(last: bool, number: nat, chunk: seq<byte>): seq<byte>
  {
    [(if last then 0x10 else 0x20) + number % 16] + chunk
  }

  function DataFrames(chunks: seq<seq<byte>>, number: nat): seq<seq<byte>>
  {
    seq(|chunks|, i requires 0 <= i < |chunks| => DataFrame(i == |chunks| - 1, number + i, chunks[i]))
  }

  /** tp20_split and the frames sent for it; _tp20_reply cuts the same way. */
  function MessageFrames(msg: seq<byte>, mark: bool, number: nat): seq<seq<byte>>
    requires |msg| <= LEN_MAX && (mark ==> |msg| <= ANSWER_MAX)
  {
    DataFrames(Sender.Split(Framed(msg, mark), CHUNK), number)
  }

  /** The length announced so far, if any. */
  datatype Want = NoLength | Length(n: nat)

  function Opcode(d: seq<byte>): nat
    requires d != []
  {
    d[0] / 16
  }

  predicate IsData(d: seq<byte>) { d != [] && Opcode(d) <= 3 }

  // ---- the module ----

  const SETUP_ID: nat := 0x200
  const RX_ID: nat := 0x300
  const TX_ID: nat := 0x740

  /** The answer to a parameter request or channel test. */
  const PARAMS: seq<byte> := [0xA1, 0x0F, 0x8A, 0xFF, 0x4A, 0xFF]

  /** A raw CAN frame. */
  datatype CanFrame = CanFrame(id: nat, data: seq<byte>)

  function OnId(id: nat, frames: seq<seq<byte>>): seq<CanFrame>
  {
    seq(|frames|, i requires 0 <= i < |frames| => CanFrame(id, frames[i]))
  }

  /** The acknowledgement that asks for data frame `number` next. */
  function Ack(number: nat): seq<byte> { [0xB0 + number % 16] }

  /** The logical addresses that answer, and the canned responses by request. */
  datatype Modules = Modules(addresses: set<byte>, ecu: map<seq<byte>, seq<byte>>)

  /** `Raises` is an exception, which ends the simulator's thread. */
  datatype Response = Raises | Canned(bytes: seq<byte>)

  /** The response to a request: its own entry unless that is empty, the catch-all, or serviceNotSupported,
      which an empty request has no service for. One too long for its length field cannot be sent. */
  function Respond(ecu: map<seq<byte>, seq<byte>>, request: seq<byte>): (r: Response)
    ensures r.Canned? ==> |r.bytes| <= LEN_MAX
  {
    var all: seq<byte> := ['*' as int];
    var found := if request in ecu && ecu[request] != [] then Canned(ecu[request])
                 else if all in ecu then Canned(ecu[all])
                 else if request == [] then Raises
                 else Canned([0x7F, request[0], 0x11]);
    if found.Canned? && |found.bytes| > LEN_MAX then Raises else found
  }

  /** The simulated module's channel, the requests it has dispatched, and what it has put on the bus. */
  datatype Module = Module(open: bool, txSeq: nat, pending: seq<byte>, want: Want,
                           dispatched: seq<seq<byte>>, sent: seq<CanFrame>, failed: bool)
  {
    function Sends(frames: seq<seq<byte>>): Module { this.(sent := sent + OnId(RX_ID, frames)) }
  }

  /** _tp20_reply. */
  function Reply(ecu: map<seq<byte>, seq<byte>>, m: Module, request: seq<byte>): Module
  {
    match Respond(ecu, request)
    case Raises => m.(dispatched := m.dispatched + [request], failed := true)
    case Canned(response) =>
      var frames := MessageFrames(response, false, m.txSeq);
      m.Sends(frames).(dispatched := m.dispatched + [request], txSeq := (m.txSeq + |frames|) % 16)
  }

  /** A data frame's bytes arrive; a frame of opcode 0 or 1 is acknowledged. */
  function TakeData(m: Module, d: seq<byte>): Module
    requires d != []
  {
    var m1 := m.(pending := m.pending + d[1..]);
    if Opcode(d) <= 1 then m1.Sends([Ack(d[0] as int % 16 + 1)]) else m1
  }

  /** The length is split off once it is there, and a request dispatched once it is whole. */
  function Advance(ecu: map<seq<byte>, seq<byte>>, m: Module): Module
  {
    var m1 := if m.want.NoLength? && |m.pending| >= 2
              then m.(want := Length(m.pending[0] as int * 0x100 + m.pending[1]), pending := m.pending[2..])
              else m;
    if m1.want.Length? && |m1.pending| >= m1.want.n
    then Reply(ecu, m1.(pending := [], want := NoLength), m1.pending[..m1.want.n])
    else m1
  }

  /** _tp20_handle for a frame on channel 5: the module after it, and whether it was TP2.0's. */
  function ModuleFrame(w: Modules, m: Module, f: CanFrame): (out: (Module, bool))
  {
    var d := f.data;
    if m.failed || d == [] then (m, false)
    else if f.id == SETUP_ID && |d| == 7 && d[1] == 0xC0 then
      if d[0] !in w.addresses then (m, true)
      else (Module(true, 0, [], NoLength, m.dispatched,
                   m.sent + [CanFrame(SETUP_ID + d[0], [0, 0xD0, 0x00, 0x03, 0x40, 0x07, 0x01])], false), true)
    else if !m.open || f.id != TX_ID then (m, false)
    else if d[0] == 0xA0 || d[0] == 0xA3 then (m.Sends([PARAMS]), true)
    else if d[0] == 0xA8 then (m.Sends([[0xA8]]).(open := false), true)
    else if !IsData(d) then (m, true)
    else (Advance(w.ecu, TakeData(m, d)), true)
  }

  function ModuleFrames(w: Modules, m: Module, frames: seq<CanFrame>): Module
    decreases |frames|
  {
    if frames == [] then m else ModuleFrames(w, ModuleFrame(w, m, frames[0]).0, frames[1..])
  }

  /** A setup opens a fresh channel on the ids it names, whatever was open before. */
  lemma SetupOpens(w: Modules, m: Module, d: seq<byte>)
    requires |d| == 7 && d[1] == 0xC0 && d[0] in w.addresses && !m.failed
    ensures var (m', consumed) := ModuleFrame(w, m, CanFrame(SETUP_ID, d));
            var reply := m'.sent[|m'.sent| - 1].data;
            && consumed && m'.open && m'.txSeq == 0 && m'.pending == [] && m'.want.NoLength?
            && m'.sent[..|m.sent|] == m.sent && |m'.sent| == |m.sent| + 1
            && ParseSetup(reply) == Ids(RX_ID, TX_ID)
  {
  }

  /** tp20_parse_setup. */
  datatype Setup = NoIds | Ids(rx: nat, tx: nat)

  function ParseSetup(d: seq<byte>): Setup
  {
    if |d| < 7 || d[1] != 0xD0 || d[3] >= 0x10 || d[5] >= 0x10 then NoIds
    else Ids(d[3] as int * 0x100 + d[2], d[5] as int * 0x100 + d[4])
  }

  /** The module's state in place. */
  class ModuleState {
    const modules: Modules
    var open: bool
    var txSeq: nat
    var pending: seq<byte>
    var want: Want
    var dispatched: seq<seq<byte>>
    var sent: seq<CanFrame>
    var failed: bool

    constructor (modules: Modules)
      ensures Abs() == Module(false, 0, [], NoLength, [], [], false) && this.modules == modules
    {
      this.modules := modules;
      open, txSeq, pending, want, dispatched, sent, failed := false, 0, [], NoLength, [], [], false;
    }

    function Abs(): Module
      reads this
    {
      Module(open, txSeq, pending, want, dispatched, sent, failed)
    }

    method Send(frame: seq<byte>)
      modifies this`sent
      ensures Abs() == old(Abs()).Sends([frame])
    {
      sent := sent + [CanFrame(RX_ID, frame)];
    }

    /** _tp20_reply. */
    method SendReply(request: seq<byte>)
      requires txSeq < 16
      modifies this`sent, this`txSeq, this`dispatched, this`failed
      ensures txSeq < 16 && Abs() == Reply(modules.ecu, old(Abs()), request)
    {
      hide Framed, Respond, DataFrames, OnId, Sender.Split, Concat;
      dispatched := dispatched + [request];
      var response := Respond(modules.ecu, request);
      if response.Raises? {
        failed := true;
        return;
      }
      var chunks := Sender.Split(Framed(response.bytes, false), CHUNK);
      ghost var frames := DataFrames(chunks, txSeq);
      FrameCount(chunks, txSeq);
      OnIdNothing(RX_ID, frames);
      for i := 0 to |chunks|
        invariant txSeq == (old(txSeq) + i) % 16 && sent == old(sent) + OnId(RX_ID, frames[..i])
        invariant dispatched == old(dispatched) + [request] && failed == old(failed)
      {
        var op := if i == |chunks| - 1 then 0x10 else 0x20;
        OnIdMore(RX_ID, frames, i);
        FrameAt(chunks, old(txSeq), i);
        var frame := [op + txSeq] + chunks[i];
        assert frame == frames[i];
        Send(frame);
        txSeq := (txSeq + 1) % 16;
      }
      assert frames[..|chunks|] == frames;
    }

    /** _tp20_handle. */
    method HandleFrame(f: CanFrame) returns (consumed: bool)
      requires txSeq < 16
      modifies this
      ensures txSeq < 16 && (Abs(), consumed) == ModuleFrame(modules, old(Abs()), f)
    {
      hide Reply, OnId, Advance, TakeData;
      var d := f.data;
      if failed || d == [] { return false; }
      if f.id == SETUP_ID && |d| == 7 && d[1] == 0xC0 {
        if d[0] !in modules.addresses { return true; }
        open, txSeq, pending, want := true, 0, [], NoLength;
        sent := sent + [CanFrame(SETUP_ID + d[0], [0, 0xD0, 0x00, 0x03, 0x40, 0x07, 0x01])];
        return true;
      }
      if !open || f.id != TX_ID { return false; }
      if d[0] == 0xA0 || d[0] == 0xA3 { Send(PARAMS); return true; }
      if d[0] == 0xA8 {
        Send([0xA8]);
        open := false;
        return true;
      }
      if d[0] / 16 > 3 { return true; }
      Take(d);
      Dispatch();
      return true;
    }

    /** The bytes of a data frame, and its acknowledgement. */
    method Take(d: seq<byte>)
      requires d != []
      modifies this`pending, this`sent
      ensures Abs() == TakeData(old(Abs()), d)
    {
      hide OnId;
      var op, number := d[0] / 16, d[0] % 16;
      pending := pending + d[1..];
      if op == 0 || op == 1 { Send([0xB0 + (number + 1) % 16]); }
    }

    /** The length, once it is there, and the request, once it is whole. */
    method Dispatch()
      requires txSeq < 16
      modifies this
      ensures txSeq < 16 && Abs() == Advance(modules.ecu, old(Abs()))
    {
      hide Reply;
      if want.NoLength? && |pending| >= 2 {
        want, pending := Length(pending[0] as int * 0x100 + pending[1]), pending[2..];
      }
      if want.Length? && |pending| >= want.n {
        var request := pending[..want.n];
        pending, want := [], NoLength;
        SendReply(request);
      }
    }
  }

  lemma FrameAt(chunks: seq<seq<byte>>, number: nat, i: nat)
    requires i < |chunks|
    ensures |DataFrames(chunks, number)| == |chunks|
    ensures DataFrames(chunks, number)[i] == [(if i == |chunks| - 1 then 0x10 else 0x20) + (number + i) % 16] + chunks[i]
  {
  }

  lemma OnIdNothing(id: nat, frames: seq<seq<byte>>)
    ensures OnId(id, frames[..0]) == []
  {
  }

  lemma OnIdMore(id: nat, frames: seq<seq<byte>>, i: nat)
    requires i < |frames|
    ensures OnId(id, frames[..i + 1]) == OnId(id, frames[..i]) + OnId(id, [frames[i]])
  {
  }

  /** The module when the last data frame of a request has come, acknowledged with `next`. */
  function Complete(ecu: map<seq<byte>, seq<byte>>, m: Module, request: seq<byte>, next: nat): Module
  {
    Reply(ecu, m.Sends([Ack(next)]).(pending := [], want := NoLength), request)
  }

  lemma ModuleStep(w: Modules, m: Module, last: bool, number: nat, chunk: seq<byte>)
    requires m.open && !m.failed && m.want.Length? && |m.pending| + |chunk| <= m.want.n
    requires last <==> |m.pending| + |chunk| == m.want.n
    ensures ModuleFrame(w, m, CanFrame(TX_ID, DataFrame(last, number, chunk))).0
         == if last then Complete(w.ecu, m, m.pending + chunk, number + 1) else m.(pending := m.pending + chunk)
  {
    hide Reply, OnId;
    assert DataFrame(last, number, chunk)[1..] == chunk;
    NextAck(number);
    var all := m.pending + chunk;
    assert all[..|all|] == all;
  }

  lemma NextAck(number: nat)
    ensures Ack(number % 16 + 1) == Ack(number + 1)
  {
  }

  lemma FramesStep(chunks: seq<seq<byte>>, number: nat)
    requires chunks != []
    ensures DataFrames(chunks, number) != []
    ensures DataFrames(chunks, number)[0] == DataFrame(|chunks| == 1, number, chunks[0])
    ensures DataFrames(chunks, number)[1..] == DataFrames(chunks[1..], number + 1)
  {
  }

  /** Chunks that run out exactly when the announced length is reached. */
  lemma {:induction false} ChunksDispatch(w: Modules, m: Module, chunks: seq<seq<byte>>, number: nat)
    requires m.open && !m.failed && m.want.Length? && chunks != [] && forall i | 0 <= i < |chunks| :: chunks[i] != []
    requires |m.pending| + |Concat(chunks)| == m.want.n
    ensures ModuleFrames(w, m, OnId(TX_ID, DataFrames(chunks, number)))
         == Complete(w.ecu, m, m.pending + Concat(chunks), number + |chunks|)
    decreases |chunks|
  {
    hide ModuleFrame, DataFrames, DataFrame, Complete;
    var frames := OnId(TX_ID, DataFrames(chunks, number));
    NoFrames(number + 1);
    FramesStep(chunks, number);
    assert frames[0] == CanFrame(TX_ID, DataFrame(|chunks| == 1, number, chunks[0]));
    assert frames[1..] == OnId(TX_ID, DataFrames(chunks[1..], number + 1));
    if |chunks| == 1 {
      assert Concat(chunks) == chunks[0];
      ModuleStep(w, m, true, number, chunks[0]);
    } else {
      assert |Concat(chunks[1..])| >= |chunks[1]|;
      ModuleStep(w, m, false, number, chunks[0]);
      ChunksDispatch(w, m.(pending := m.pending + chunks[0]), chunks[1..], number + 1);
      CompleteIgnoresPending(w.ecu, m, m.pending + chunks[0], m.pending + Concat(chunks), number + |chunks|);
      assert m.pending + chunks[0] + Concat(chunks[1..]) == m.pending + Concat(chunks);
    }
  }

  lemma CompleteIgnoresPending(ecu: map<seq<byte>, seq<byte>>, m: Module, pending: seq<byte>, request: seq<byte>, next: nat)
    ensures Complete(ecu, m.(pending := pending), request, next) == Complete(ecu, m, request, next)
  {
    hide Reply;
  }

  /** The pieces of a framed message: none is empty, and the first holds the length. */
  lemma Pieces(msg: seq<byte>, mark: bool)
    requires 1 <= |msg| <= LEN_MAX && (mark ==> |msg| <= ANSWER_MAX)
    ensures var parts := Sender.Split(Framed(msg, mark), CHUNK);
            && (forall i | 0 <= i < |parts| :: parts[i] != [])
            && |parts[0]| >= 3 && parts[0][..2] == Framed(msg, mark)[..2]
            && parts[0][2..] + Concat(parts[1..]) == msg
  {
    var body := Framed(msg, mark);
    var parts := Sender.Split(body, CHUNK);
    SplitNonEmpty(body, CHUNK);
    assert parts[0] == body[..Min(|body|, CHUNK)];
    assert Concat(parts) == parts[0] + Concat(parts[1..]);
    assert body[2..] == msg;
  }

  lemma {:induction false} SplitNonEmpty(data: seq<byte>, n: nat)
    requires n > 0 && data != []
    ensures forall i | 0 <= i < |Sender.Split(data, n)| :: Sender.Split(data, n)[i] != []
    decreases |data|
  {
    if |data| > n { SplitNonEmpty(data[n..], n); }
  }

  /** Every non-empty request is dispatched exactly once, whole; the module acknowledges its last frame,
      sends the response in the same form, and is ready for the next. */
  lemma RequestRoundTrip(w: Modules, m: Module, request: seq<byte>, number: nat)
    requires m.open && !m.failed && m.pending == [] && m.want.NoLength? && 1 <= |request| <= LEN_MAX
    ensures var frames := MessageFrames(request, false, number);
            ModuleFrames(w, m, OnId(TX_ID, frames)) == Complete(w.ecu, m, request, number + |frames|)
  {
    hide Framed, DataFrames, DataFrame, Complete, ModuleFrame;
    Pieces(request, false);
    var parts := Sender.Split(Framed(request, false), CHUNK);
    var frames := OnId(TX_ID, DataFrames(parts, number));
    FramesStep(parts, number);
    NoFrames(number + 1);
    FirstFrame(w, m, request, |parts| == 1, number, parts[0]);
    assert frames[0] == CanFrame(TX_ID, DataFrame(|parts| == 1, number, parts[0]));
    assert frames[1..] == OnId(TX_ID, DataFrames(parts[1..], number + 1));
    assert |DataFrames(parts, number)| == |parts| by { FrameCount(parts, number); }
    if |parts| == 1 {
      assert parts[0][2..] == request;
    } else {
      assert |Concat(parts[1..])| >= |parts[1]|;
      var m1 := m.(want := Length(|request|), pending := parts[0][2..]);
      ChunksDispatch(w, m1, parts[1..], number + 1);
      CompleteIgnoresWant(w.ecu, m, m1, request, number + |parts|);
    }
  }

  lemma FrameCount(chunks: seq<seq<byte>>, number: nat)
    ensures |DataFrames(chunks, number)| == |chunks|
  {
  }

  lemma CompleteIgnoresWant(ecu: map<seq<byte>, seq<byte>>, m: Module, m1: Module, request: seq<byte>, next: nat)
    requires m1 == m.(want := m1.want, pending := m1.pending)
    ensures Complete(ecu, m1, request, next) == Complete(ecu, m, request, next)
  {
    hide Reply;
  }

  /** The first data frame of a request. */
  lemma FirstFrame(w: Modules, m: Module, request: seq<byte>, last: bool, number: nat, piece: seq<byte>)
    requires m.open && !m.failed && m.pending == [] && m.want.NoLength? && 1 <= |request| <= LEN_MAX
    requires |piece| >= 3 && piece[..2] == Framed(request, false)[..2] && piece[2..] <= request
    requires last <==> piece[2..] == request
    ensures ModuleFrame(w, m, CanFrame(TX_ID, DataFrame(last, number, piece))).0
         == if last then Complete(w.ecu, m, request, number + 1)
            else m.(want := Length(|request|), pending := piece[2..])
  {
    hide Reply, OnId, Framed;
    FirstPiece(request, piece);
    NextAck(number);
    assert DataFrame(last, number, piece)[1..] == piece && [] + piece == piece;
    assert request[..|request|] == request;
  }

  lemma FirstPiece(msg: seq<byte>, piece: seq<byte>)
    requires |msg| <= LEN_MAX && |piece| >= 2 && piece[..2] == Framed(msg, false)[..2]
    ensures piece[0] as int * 0x100 + piece[1] == |msg|
  {
    assert piece[0] == piece[..2][0] && piece[1] == piece[..2][1];
  }

  // ---- the tester ----

  /** A received CAN frame: whether it has the channel's id, and its data. */
  datatype Received = Received(own: bool, data: seq<byte>)

  datatype Outcome = Answer(msg: seq<byte>) | ChannelClosed | NoAnswer

  /** KWP responsePending: 7F <service> 78. */
  predicate IsResponsePending(msg: seq<byte>) { |msg| >= 3 && msg[0] == 0x7F && msg[2] == 0x78 }

  /** The receive loop of Tp20.request, over the frames that arrive before it gives up. */
  function Await(frames: seq<Received>, want: Want, acc: seq<byte>): Outcome
    decreases |frames|
  {
    if frames == [] then NoAnswer
    else
      var d, more := frames[0].data, frames[1..];
      if !frames[0].own || d == [] then Await(more, want, acc)
      else if d[0] == 0xA8 then ChannelClosed
      else if !IsData(d) then Await(more, want, acc)
      else if want.NoLength? && |d| < 3 then Await(more, want, acc)
      else
        var n := if want.Length? then want.n else d[1] as int % 0x80 * 0x100 + d[2];
        var got := acc + (if want.Length? then d[1..] else d[3..]);
        if |got| < n then Await(more, Length(n), got)
        else if IsResponsePending(got[..n]) then Await(more, NoLength, [])
        else Answer(got[..n])
  }

  /** What the tester sends meanwhile: acknowledgements where one is asked for, and its parameters when the
      module tests the channel. */
  function Responses(frames: seq<Received>, want: Want, acc: seq<byte>): seq<seq<byte>>
    decreases |frames|
  {
    if frames == [] then []
    else
      var d, more := frames[0].data, frames[1..];
      if !frames[0].own || d == [] then Responses(more, want, acc)
      else if d[0] == 0xA8 then []
      else if !IsData(d) then (if d[0] == 0xA3 then [PARAMS] else []) + Responses(more, want, acc)
      else if want.NoLength? && |d| < 3 then Responses(more, want, acc)
      else
        var n := if want.Length? then want.n else d[1] as int % 0x80 * 0x100 + d[2];
        var got := acc + (if want.Length? then d[1..] else d[3..]);
        AckFor(d) + (if |got| < n then Responses(more, Length(n), got)
                     else if IsResponsePending(got[..n]) then Responses(more, NoLength, []) else [])
  }

  function AckFor(d: seq<byte>): seq<seq<byte>>
    requires d != []
  {
    if Opcode(d) <= 1 then [Ack(d[0] as int % 16 + 1)] else []
  }

  /** The receive loop on one frame: `Await` and `Responses`, unfolded once. */
  lemma OneReceived(frames: seq<Received>, i: nat, want: Want, acc: seq<byte>)
    requires i < |frames|
    ensures frames[i].own && |frames[i].data| >= 3 ==> frames[i].data[1..][2..] == frames[i].data[3..]
    ensures var d, more := frames[i].data, frames[i + 1..];
            var o, sent := Await(frames[i..], want, acc), Responses(frames[i..], want, acc);
            if !frames[i].own || d == [] then o == Await(more, want, acc) && sent == Responses(more, want, acc)
            else if d[0] == 0xA8 then o == ChannelClosed && sent == []
            else if !IsData(d) then
              o == Await(more, want, acc) && sent == (if d[0] == 0xA3 then [PARAMS] else []) + Responses(more, want, acc)
            else if want.NoLength? && |d| < 3 then o == Await(more, want, acc) && sent == Responses(more, want, acc)
            else
              var n := if want.Length? then want.n else d[1] as int % 0x80 * 0x100 + d[2];
              var got := acc + (if want.Length? then d[1..] else d[1..][2..]);
              if |got| < n then o == Await(more, Length(n), got) && sent == AckFor(d) + Responses(more, Length(n), got)
              else if IsResponsePending(got[..n]) then
                o == Await(more, NoLength, []) && sent == AckFor(d) + Responses(more, NoLength, [])
              else o == Answer(got[..n]) && sent == AckFor(d)
  {
    hide IsResponsePending;
    assert frames[i..][1..] == frames[i + 1..];
    var d := frames[i].data;
    if |d| >= 3 { assert d[1..][2..] == d[3..]; }
  }

  lemma NothingReceived(want: Want, acc: seq<byte>)
    ensures Await([], want, acc) == NoAnswer && Responses([], want, acc) == []
    ensures Rest([], want, acc) == (want, acc) && Pendings([], want, acc) == 0
  {
  }

  /** Tp20: the number of the next frame sent, and whether the channel is open. */
  class Tester {
    var txSeq: nat
    var channelOpen: bool

    constructor ()
      ensures txSeq == 0 && !channelOpen
    {
      txSeq, channelOpen := 0, false;
    }

    /** The sending half of request. */
    method SendRequest(payload: seq<byte>) returns (sent: seq<seq<byte>>)
      requires txSeq < 16 && |payload| <= LEN_MAX
      modifies this`txSeq
      ensures sent == MessageFrames(payload, false, old(txSeq))
      ensures txSeq == (old(txSeq) + |sent|) % 16
    {
      hide Framed, DataFrames, Sender.Split, Concat;
      sent := [];
      var chunks := Sender.Split(Framed(payload, false), CHUNK);
      ghost var frames := DataFrames(chunks, txSeq);
      FrameCount(chunks, txSeq);
      for i := 0 to |chunks|
        invariant txSeq == (old(txSeq) + i) % 16 && sent == frames[..i]
      {
        var op := if i == |chunks| - 1 then 0x10 else 0x20;
        FrameAt(chunks, old(txSeq), i);
        var frame := [op + txSeq] + chunks[i];
        assert frame == frames[i];
        sent := sent + [frame];
        assert sent == frames[..i + 1];
        txSeq := (txSeq + 1) % 16;
      }
    }

    /** The frames of one look at the bus, `want` and `acc` as they stand; `reset` when a responsePending
        was completed, which starts the time again. */
    method TakeFrames(frames: seq<Received>, wanted: Want, had: seq<byte>)
      returns (o: Outcome, want: Want, acc: seq<byte>, sent: seq<seq<byte>>, reset: bool)
      modifies this`channelOpen
      ensures o == Await(frames, wanted, had) && sent == Responses(frames, wanted, had)
      ensures o.NoAnswer? ==> (want, acc) == Rest(frames, wanted, had) && (reset <==> Pendings(frames, wanted, had) > 0)
      ensures channelOpen == (old(channelOpen) && !o.ChannelClosed?)
    {
      hide Await, Responses, Rest, Pendings;
      var i := 0;
      want, acc, sent, reset := wanted, had, [], false;
      assert frames[0..] == frames;
      while i < |frames|
        invariant i <= |frames| && Await(frames, wanted, had) == Await(frames[i..], want, acc)
        invariant Responses(frames, wanted, had) == sent + Responses(frames[i..], want, acc)
        invariant Rest(frames, wanted, had) == Rest(frames[i..], want, acc)
        invariant Pendings(frames, wanted, had) > 0 <==> reset || Pendings(frames[i..], want, acc) > 0
        invariant channelOpen == old(channelOpen)
      {
        var own, d := frames[i].own, frames[i].data;
        OneReceived(frames, i, want, acc);
        OneCounted(frames, i, want, acc);
        i := i + 1;
        if !own || d == [] { continue; }
        var op, number := d[0] / 16, d[0] % 16;
        if op == 0xA {
          if d[0] == 0xA8 {
            channelOpen := false;
            o := ChannelClosed;
            return;
          }
          if d[0] == 0xA3 { sent := sent + [PARAMS]; }
          continue;
        }
        if op == 0xB || op == 0x9 { continue; }
        if op > 3 { continue; }
        var part := d[1..];
        if want.NoLength? {
          if |part| < 2 { continue; }
          want := Length(part[0] as int % 0x80 * 0x100 + part[1]);
          part := part[2..];
        }
        acc := acc + part;
        if op == 0 || op == 1 { sent := sent + [[0xB0 + (number + 1) % 16]]; }
        if |acc| >= want.n {
          var msg := acc[..want.n];
          if |msg| >= 3 && msg[0] == 0x7F && msg[2] == 0x78 {
            want, acc, reset := NoLength, [], true;
            continue;
          }
          o := Answer(msg);
          return;
        }
      }
      NothingReceived(want, acc);
      assert frames[i..] == [] && sent + [] == sent;
      o := NoAnswer;
    }

    /** The receiving half: looks at the bus until there is an answer, the module closes, or `timeout` has
        passed since the request or the last responsePending. `used` is how many looks it took. */
    method Receive(start: nat, timeout: nat, polls: seq<Poll>) returns (o: Outcome, sent: seq<seq<byte>>, used: nat)
      modifies this`channelOpen
      ensures used <= |polls| && o == Await(AllFrames(polls[..used]), NoLength, [])
      ensures sent == Responses(AllFrames(polls[..used]), NoLength, [])
      ensures forall k | 0 <= k < used :: polls[k].now < ResetTime(start, polls[..k]) + timeout
      ensures o.NoAnswer? && used < |polls| ==> polls[used].now >= ResetTime(start, polls[..used]) + timeout
      ensures !o.NoAnswer? ==> used > 0 && Await(AllFrames(polls[..used - 1]), NoLength, []).NoAnswer?
      ensures channelOpen == (old(channelOpen) && !o.ChannelClosed?)
    {
      hide Await, Responses, Rest, Pendings, AllFrames, ResetTime;
      var want: Want, acc: seq<byte>, t0 := NoLength, [], start;
      sent, used := [], 0;
      NothingPolled(start, polls);
      while used < |polls| && polls[used].now < t0 + timeout
        invariant used <= |polls| && Await(AllFrames(polls[..used]), NoLength, []).NoAnswer?
        invariant (want, acc) == Rest(AllFrames(polls[..used]), NoLength, [])
        invariant sent == Responses(AllFrames(polls[..used]), NoLength, [])
        invariant t0 == ResetTime(start, polls[..used])
        invariant forall k | 0 <= k < used :: polls[k].now < ResetTime(start, polls[..k]) + timeout
        invariant channelOpen == old(channelOpen)
      {
        OnePollMore(start, polls, used);
        var more, reset;
        o, want, acc, more, reset := TakeFrames(polls[used].frames, want, acc);
        if reset { t0 := polls[used].done; }
        sent := sent + more;
        used := used + 1;
        if !o.NoAnswer? { return; }
      }
      o := NoAnswer;
    }

    /** request: `allowed` is what the service guard says, `idle` whether the channel needs a channel test
        first, which takes the module's answer off the bus before any of `polls`. */
    method Request(payload: seq<byte>, allowed: bool, idle: bool, start: nat, timeout: nat, polls: seq<Poll>)
      returns (refused: bool, o: Outcome, sent: seq<seq<byte>>, used: nat)
      requires txSeq < 16 && 1 <= |payload| <= LEN_MAX
      modifies this
      ensures refused == !allowed
      ensures refused ==> sent == [] && o.NoAnswer? && used == 0 && txSeq == old(txSeq) && channelOpen == old(channelOpen)
      ensures !refused ==>
                && used <= |polls| && o == Await(AllFrames(polls[..used]), NoLength, [])
                && channelOpen == (old(channelOpen) && !o.ChannelClosed?)
                && sent == (if old(channelOpen) && idle then [[0xA3]] else [])
                           + MessageFrames(payload, false, old(txSeq)) + Responses(AllFrames(polls[..used]), NoLength, [])
                && txSeq == (old(txSeq) + |MessageFrames(payload, false, old(txSeq))|) % 16
      ensures !refused && o.NoAnswer? && used < |polls| ==> polls[used].now >= ResetTime(start, polls[..used]) + timeout
    {
      hide Await, Responses, MessageFrames, AllFrames, ResetTime;
      refused, o, sent, used := !allowed, NoAnswer, [], 0;
      if refused { return; }
      if channelOpen && idle { sent := [[0xA3]]; }
      var first := SendRequest(payload);
      var more;
      o, more, used := Receive(start, timeout, polls);
      sent := sent + first + more;
    }
  }

  /** One look at the bus: the time before it, the frames it found, and the time when they were handled. */
  datatype Poll = Poll(now: nat, frames: seq<Received>, done: nat)

  function AllFrames(polls: seq<Poll>): seq<Received>
  {
    if polls == [] then [] else AllFrames(polls[..|polls| - 1]) + polls[|polls| - 1].frames
  }

  /** Whether a frame adds to the message being received. */
  predicate Adds(r: Received, want: Want)
  {
    r.own && IsData(r.data) && (want.Length? || |r.data| >= 3)
  }

  /** The length and bytes so far once `r`, which adds to them, is in. */
  function With(r: Received, want: Want, acc: seq<byte>): (nat, seq<byte>)
    requires Adds(r, want)
  {
    var d := r.data;
    if want.Length? then (want.n, acc + d[1..]) else (d[1] as int % 0x80 * 0x100 + d[2], acc + d[3..])
  }

  /** Where the reception stands after frames that bring no answer. */
  function Rest(frames: seq<Received>, want: Want, acc: seq<byte>): (Want, seq<byte>)
    decreases |frames|
  {
    if frames == [] then (want, acc)
    else if !Adds(frames[0], want) then Rest(frames[1..], want, acc)
    else
      var (n, got) := With(frames[0], want, acc);
      if |got| < n then Rest(frames[1..], Length(n), got) else Rest(frames[1..], NoLength, [])
  }

  /** How many messages, all of them responsePending, such frames complete. */
  function Pendings(frames: seq<Received>, want: Want, acc: seq<byte>): nat
    decreases |frames|
  {
    if frames == [] then 0
    else if !Adds(frames[0], want) then Pendings(frames[1..], want, acc)
    else
      var (n, got) := With(frames[0], want, acc);
      if |got| < n then Pendings(frames[1..], Length(n), got) else 1 + Pendings(frames[1..], NoLength, [])
  }

  /** When the time last started: at `start`, or when the last responsePending was handled. */
  function ResetTime(start: nat, polls: seq<Poll>): nat
  {
    if polls == [] then start
    else
      var before := polls[..|polls| - 1];
      if Pendings(AllFrames(polls), NoLength, []) > Pendings(AllFrames(before), NoLength, [])
      then polls[|polls| - 1].done else ResetTime(start, before)
  }

  lemma OneCounted(frames: seq<Received>, i: nat, want: Want, acc: seq<byte>)
    requires i < |frames|
    ensures var r, more := frames[i], frames[i + 1..];
            if !Adds(r, want) then
              Rest(frames[i..], want, acc) == Rest(more, want, acc) && Pendings(frames[i..], want, acc) == Pendings(more, want, acc)
            else
              var (n, got) := With(r, want, acc);
              if |got| < n then
                Rest(frames[i..], want, acc) == Rest(more, Length(n), got)
                && Pendings(frames[i..], want, acc) == Pendings(more, Length(n), got)
              else Rest(frames[i..], want, acc) == Rest(more, NoLength, []) && Pendings(frames[i..], want, acc) == 1 + Pendings(more, NoLength, [])
  {
    hide With, Adds;
    assert frames[i..][1..] == frames[i + 1..];
  }

  /** Frames that bring no answer, and then others. */
  lemma {:induction false} AwaitAppends(a: seq<Received>, b: seq<Received>, want: Want, acc: seq<byte>)
    requires Await(a, want, acc).NoAnswer?
    ensures var (want', acc') := Rest(a, want, acc);
            && Await(a + b, want, acc) == Await(b, want', acc')
            && Responses(a + b, want, acc) == Responses(a, want, acc) + Responses(b, want', acc')
            && Rest(a + b, want, acc) == Rest(b, want', acc')
            && Pendings(a + b, want, acc) == Pendings(a, want, acc) + Pendings(b, want', acc')
    decreases |a|
  {
    hide Await, Responses, Rest, Pendings, IsResponsePending, AckFor;
    if a == [] {
      assert a + b == b;
      NothingReceived(want, acc);
      assert [] + Responses(b, want, acc) == Responses(b, want, acc);
    } else {
      var more := a[1..];
      assert (a + b)[1..] == more + b && (a + b)[0] == a[0] && a[0..] == a && (a + b)[0..] == a + b;
      OneReceived(a, 0, want, acc);
      OneReceived(a + b, 0, want, acc);
      OneCounted(a, 0, want, acc);
      OneCounted(a + b, 0, want, acc);
      if Adds(a[0], want) {
        var (n, got) := With(a[0], want, acc);
        if |got| < n { AwaitAppends(more, b, Length(n), got); } else { AwaitAppends(more, b, NoLength, []); }
      } else {
        AwaitAppends(more, b, want, acc);
      }
    }
  }

  lemma NothingPolled(start: nat, polls: seq<Poll>)
    ensures AllFrames(polls[..0]) == [] && ResetTime(start, polls[..0]) == start
    ensures Await([], NoLength, []).NoAnswer? && Responses([], NoLength, []) == [] && Rest([], NoLength, []) == (NoLength, [])
  {
  }

  lemma OnePollMore(start: nat, polls: seq<Poll>, k: nat)
    requires k < |polls| && Await(AllFrames(polls[..k]), NoLength, []).NoAnswer?
    ensures var (want, acc) := Rest(AllFrames(polls[..k]), NoLength, []);
            var all, frames := AllFrames(polls[..k + 1]), polls[k].frames;
            && Await(all, NoLength, []) == Await(frames, want, acc)
            && Responses(all, NoLength, []) == Responses(AllFrames(polls[..k]), NoLength, []) + Responses(frames, want, acc)
            && Rest(all, NoLength, []) == Rest(frames, want, acc)
            && ResetTime(start, polls[..k + 1])
               == (if Pendings(frames, want, acc) > 0 then polls[k].done else ResetTime(start, polls[..k]))
  {
    hide Await, Responses, Rest, Pendings;
    assert polls[..k + 1][..k] == polls[..k];
    AwaitAppends(AllFrames(polls[..k]), polls[k].frames, NoLength, []);
  }

  /** The data frames among those of the channel's id. */
  function DataOnly(frames: seq<Received>): seq<seq<byte>>
  {
    if frames == [] then []
    else (if frames[0].own && IsData(frames[0].data) then [frames[0].data] else []) + DataOnly(frames[1..])
  }

  predicate Closes(r: Received) { r.own && r.data != [] && r.data[0] == 0xA8 }

  function AsReceived(data: seq<seq<byte>>): seq<Received>
  {
    seq(|data|, i requires 0 <= i < |data| => Received(true, data[i]))
  }

  /** Other ids' frames, acknowledgements, channel tests and parameter answers change nothing. */
  lemma {:induction false} NoiseIsIgnored(frames: seq<Received>, want: Want, acc: seq<byte>)
    requires forall i | 0 <= i < |frames| :: !Closes(frames[i])
    ensures Await(frames, want, acc) == Await(AsReceived(DataOnly(frames)), want, acc)
    decreases |frames|
  {
    if frames != [] {
      var d, more := frames[0].data, frames[1..];
      var rest := AsReceived(DataOnly(more));
      if frames[0].own && IsData(d) {
        var kept := AsReceived(DataOnly(frames));
        assert kept[0] == Received(true, d) && kept[1..] == rest;
        NoiseIsIgnored(more, want, acc);
        var n := if want.Length? then want.n else if |d| >= 3 then d[1] as int % 0x80 * 0x100 + d[2] else 0;
        NoiseIsIgnored(more, Length(n), acc + (if want.Length? then d[1..] else if |d| >= 3 then d[3..] else []));
        NoiseIsIgnored(more, NoLength, []);
      } else {
        assert DataOnly(frames) == DataOnly(more);
        NoiseIsIgnored(more, want, acc);
      }
    }
  }

  /** What a complete message does to the wait for an answer. */
  function AfterMessage(msg: seq<byte>, more: seq<Received>): Outcome
  {
    if IsResponsePending(msg) then Await(more, NoLength, []) else Answer(msg)
  }

  lemma ReceivedStep(data: seq<seq<byte>>, more: seq<Received>)
    requires data != []
    ensures AsReceived(data) + more == [Received(true, data[0])] + (AsReceived(data[1..]) + more)
  {
  }

  /** A data frame while the length is known. */
  lemma AwaitStep(last: bool, number: nat, chunk: seq<byte>, more: seq<Received>, n: nat, acc: seq<byte>)
    requires |acc| + |chunk| <= n
    ensures Await([Received(true, DataFrame(last, number, chunk))] + more, Length(n), acc)
         == if |acc| + |chunk| < n then Await(more, Length(n), acc + chunk) else AfterMessage(acc + chunk, more)
  {
    hide IsResponsePending;
    var d := DataFrame(last, number, chunk);
    var frames := [Received(true, d)] + more;
    assert d[1..] == chunk && frames[1..] == more;
    var all := acc + chunk;
    assert all[..|all|] == all;
  }

  lemma {:induction false} ChunksArrive(chunks: seq<seq<byte>>, number: nat, acc: seq<byte>, n: nat, more: seq<Received>)
    requires chunks != [] && (forall i | 0 <= i < |chunks| :: chunks[i] != []) && |acc| + |Concat(chunks)| == n
    ensures Await(AsReceived(DataFrames(chunks, number)) + more, Length(n), acc)
         == AfterMessage(acc + Concat(chunks), more)
    decreases |chunks|
  {
    hide Await, DataFrames, DataFrame, AfterMessage;
    var rest := AsReceived(DataFrames(chunks[1..], number + 1)) + more;
    FramesStep(chunks, number);
    ReceivedStep(DataFrames(chunks, number), more);
    AwaitStep(|chunks| == 1, number, chunks[0], rest, n, acc);
    if |chunks| == 1 {
      assert Concat(chunks) == chunks[0];
      assert DataFrames(chunks[1..], number + 1) == [] by { NoFrames(number + 1); }
      assert rest == more;
    } else {
      assert |Concat(chunks[1..])| >= |chunks[1]|;
      ChunksArrive(chunks[1..], number + 1, acc + chunks[0], n, more);
      assert acc + chunks[0] + Concat(chunks[1..]) == acc + Concat(chunks);
    }
  }

  lemma NoFrames(number: nat)
    ensures DataFrames([], number) == []
  {
  }

  /** The first data frame of a message, its length not yet known. */
  lemma FirstStep(last: bool, number: nat, chunk: seq<byte>, more: seq<Received>, n: nat)
    requires |chunk| >= 2 && chunk[0] as int % 0x80 * 0x100 + chunk[1] == n && |chunk| - 2 <= n
    ensures Await([Received(true, DataFrame(last, number, chunk))] + more, NoLength, [])
         == if |chunk| - 2 < n then Await(more, Length(n), chunk[2..]) else AfterMessage(chunk[2..], more)
  {
    hide IsResponsePending;
    var d := DataFrame(last, number, chunk);
    var frames := [Received(true, d)] + more;
    assert d[1..] == chunk && d[3..] == chunk[2..] && frames[1..] == more;
    assert [] + chunk[2..] == chunk[2..];
    assert chunk[2..][..|chunk| - 2] == chunk[2..];
  }

  /** A message the tester's mask leaves its length arrives whole. */
  lemma MessageArrives(msg: seq<byte>, mark: bool, number: nat, more: seq<Received>)
    requires 1 <= |msg| <= ANSWER_MAX
    ensures Await(AsReceived(MessageFrames(msg, mark, number)) + more, NoLength, []) == AfterMessage(msg, more)
  {
    hide Framed, Await, DataFrames, DataFrame, AfterMessage;
    Pieces(msg, mark);
    var parts := Sender.Split(Framed(msg, mark), CHUNK);
    MaskedLength(msg, mark, parts[0]);
    var rest := AsReceived(DataFrames(parts[1..], number + 1)) + more;
    FramesStep(parts, number);
    ReceivedStep(DataFrames(parts, number), more);
    FirstStep(|parts| == 1, number, parts[0], rest, |msg|);
    if |parts| == 1 {
      NoFrames(number + 1);
      assert parts[0][2..] == msg;
      assert rest == more;
    } else {
      assert |Concat(parts[1..])| >= |parts[1]|;
      ChunksArrive(parts[1..], number + 1, parts[0][2..], |msg|, more);
    }
  }

  lemma MaskedLength(msg: seq<byte>, mark: bool, piece: seq<byte>)
    requires |msg| <= ANSWER_MAX && |piece| >= 2 && piece[..2] == Framed(msg, mark)[..2]
    ensures piece[0] as int % 0x80 * 0x100 + piece[1] == |msg|
  {
    assert piece[0] == piece[..2][0] && piece[1] == piece[..2][1];
  }

  /** A message from the module: its bytes, whether its length carries the mark, and its numbering. */
  datatype Sent = Sent(msg: seq<byte>, mark: bool, number: nat)

  function FramesOf(messages: seq<Sent>): seq<seq<byte>>
    requires forall i | 0 <= i < |messages| :: |messages[i].msg| <= ANSWER_MAX
  {
    if messages == [] then []
    else MessageFrames(messages[0].msg, messages[0].mark, messages[0].number) + FramesOf(messages[1..])
  }

  lemma {:induction false} PendingsAreSkipped(pendings: seq<Sent>, more: seq<Received>)
    requires forall i | 0 <= i < |pendings| :: IsResponsePending(pendings[i].msg) && |pendings[i].msg| <= ANSWER_MAX
    ensures Await(AsReceived(FramesOf(pendings)) + more, NoLength, []) == Await(more, NoLength, [])
    decreases |pendings|
  {
    hide Await, MessageFrames;
    if pendings == [] {
      assert AsReceived(FramesOf(pendings)) + more == more;
    } else {
      var first, rest := pendings[0], AsReceived(FramesOf(pendings[1..])) + more;
      MessageArrives(first.msg, first.mark, first.number, rest);
      PendingsAreSkipped(pendings[1..], more);
      assert AsReceived(FramesOf(pendings)) + more
          == AsReceived(MessageFrames(first.msg, first.mark, first.number)) + rest;
    }
  }

  /** Any number of responsePending messages and then an answer, with frames of any other kind in
      between: the request returns exactly the answer. */
  lemma AnswerRoundTrip(pendings: seq<Sent>, answer: Sent, frames: seq<Received>)
    requires forall i | 0 <= i < |pendings| :: IsResponsePending(pendings[i].msg) && |pendings[i].msg| <= ANSWER_MAX
    requires 1 <= |answer.msg| <= ANSWER_MAX && !IsResponsePending(answer.msg)
    requires forall i | 0 <= i < |frames| :: !Closes(frames[i])
    requires DataOnly(frames) == FramesOf(pendings) + MessageFrames(answer.msg, answer.mark, answer.number)
    ensures Await(frames, NoLength, []) == Answer(answer.msg)
  {
    hide Await, MessageFrames, FramesOf;
    NoiseIsIgnored(frames, NoLength, []);
    var last := AsReceived(MessageFrames(answer.msg, answer.mark, answer.number));
    assert AsReceived(DataOnly(frames)) == AsReceived(FramesOf(pendings)) + last;
    PendingsAreSkipped(pendings, last);
    MessageArrives(answer.msg, answer.mark, answer.number, []);
    assert last + [] == last;
  }

  // ---- the acknowledgements, and both ends together ----

  lemma AckStep(last: bool, number: nat, chunk: seq<byte>, more: seq<Received>, n: nat, acc: seq<byte>)
    requires last <==> |acc| + |chunk| == n
    requires |acc| + |chunk| <= n
    ensures Responses([Received(true, DataFrame(last, number, chunk))] + more, Length(n), acc)
         == if last then [Ack(number + 1)] + AfterAck(acc + chunk, more) else Responses(more, Length(n), acc + chunk)
  {
    hide IsResponsePending, Await, Responses, DataFrame, AckFor;
    var d := DataFrame(last, number, chunk);
    var frames := [Received(true, d)] + more;
    FrameShape(last, number, chunk);
    OneReceived(frames, 0, Length(n), acc);
    assert frames[0..] == frames && frames[1..] == more;
    var all := acc + chunk;
    assert all[..|all|] == all;
    assert [] + Responses(more, Length(n), all) == Responses(more, Length(n), all);
    assert AckFor(d) + [] == AckFor(d);
  }

  lemma FrameShape(last: bool, number: nat, chunk: seq<byte>)
    ensures var d := DataFrame(last, number, chunk);
            && IsData(d) && d[0] < 0x30 && d[1..] == chunk && AckFor(d) == if last then [Ack(number + 1)] else []
  {
    NextAck(number);
  }

  /** What follows the acknowledgement of a whole message. */
  function AfterAck(msg: seq<byte>, more: seq<Received>): seq<seq<byte>>
  {
    if IsResponsePending(msg) then Responses(more, NoLength, []) else []
  }

  lemma {:induction false} ChunksAcked(chunks: seq<seq<byte>>, number: nat, acc: seq<byte>, n: nat, more: seq<Received>)
    requires chunks != [] && (forall i | 0 <= i < |chunks| :: chunks[i] != []) && |acc| + |Concat(chunks)| == n
    ensures Responses(AsReceived(DataFrames(chunks, number)) + more, Length(n), acc)
         == [Ack(number + |chunks|)] + AfterAck(acc + Concat(chunks), more)
    decreases |chunks|
  {
    hide Responses, DataFrames, DataFrame, AfterAck, Ack;
    var rest := AsReceived(DataFrames(chunks[1..], number + 1)) + more;
    FramesStep(chunks, number);
    ReceivedStep(DataFrames(chunks, number), more);
    NoFrames(number + 1);
    if |chunks| == 1 {
      assert Concat(chunks) == chunks[0];
      assert rest == more;
      AckStep(true, number, chunks[0], rest, n, acc);
    } else {
      assert |Concat(chunks[1..])| >= |chunks[1]|;
      AckStep(false, number, chunks[0], rest, n, acc);
      ChunksAcked(chunks[1..], number + 1, acc + chunks[0], n, more);
      assert acc + chunks[0] + Concat(chunks[1..]) == acc + Concat(chunks);
    }
  }

  lemma FirstAck(last: bool, number: nat, chunk: seq<byte>, more: seq<Received>, n: nat)
    requires |chunk| >= 2 && chunk[0] as int % 0x80 * 0x100 + chunk[1] == n && |chunk| - 2 <= n
    requires last <==> |chunk| - 2 == n
    ensures Responses([Received(true, DataFrame(last, number, chunk))] + more, NoLength, [])
         == if last then [Ack(number + 1)] + AfterAck(chunk[2..], more) else Responses(more, Length(n), chunk[2..])
  {
    hide IsResponsePending, Await, Responses, DataFrame, AckFor;
    var d := DataFrame(last, number, chunk);
    var frames := [Received(true, d)] + more;
    FrameShape(last, number, chunk);
    OneReceived(frames, 0, NoLength, []);
    assert frames[0..] == frames && frames[1..] == more;
    assert d[1] == d[1..][0] && d[2] == d[1..][1];
    assert [] + chunk[2..] == chunk[2..] && chunk[2..][..|chunk| - 2] == chunk[2..];
    assert [] + Responses(more, Length(n), chunk[2..]) == Responses(more, Length(n), chunk[2..]);
    assert AckFor(d) + [] == AckFor(d);
  }

  /** A message is acknowledged once, after its last frame, with the number due next. */
  lemma MessageAcked(msg: seq<byte>, mark: bool, number: nat, more: seq<Received>)
    requires 1 <= |msg| <= ANSWER_MAX
    ensures var frames := MessageFrames(msg, mark, number);
            Responses(AsReceived(frames) + more, NoLength, []) == [Ack(number + |frames|)] + AfterAck(msg, more)
  {
    hide Framed, Responses, DataFrames, DataFrame, AfterAck;
    Pieces(msg, mark);
    var parts := Sender.Split(Framed(msg, mark), CHUNK);
    MaskedLength(msg, mark, parts[0]);
    var rest := AsReceived(DataFrames(parts[1..], number + 1)) + more;
    FramesStep(parts, number);
    FrameCount(parts, number);
    ReceivedStep(DataFrames(parts, number), more);
    FirstAck(|parts| == 1, number, parts[0], rest, |msg|);
    if |parts| == 1 {
      NoFrames(number + 1);
      assert parts[0][2..] == msg;
      assert rest == more;
    } else {
      assert |Concat(parts[1..])| >= |parts[1]|;
      ChunksAcked(parts[1..], number + 1, parts[0][2..], |msg|, more);
    }
  }

  /** What the tester hears of the bus. */
  function Heard(frames: seq<CanFrame>): seq<Received>
  {
    seq(|frames|, i requires 0 <= i < |frames| => Received(frames[i].id == RX_ID, frames[i].data))
  }

  /** Both ends together: the tester's request frames reach the module, what the module then puts on the bus
      reaches the tester, and the request returns exactly the module's response, acknowledged once. */
  lemma RequestIsAnswered(w: Modules, m: Module, request: seq<byte>, number: nat)
    requires m.open && !m.failed && m.pending == [] && m.want.NoLength? && 1 <= |request| <= LEN_MAX
    requires var r := Respond(w.ecu, request); r.Canned? && 1 <= |r.bytes| <= ANSWER_MAX && !IsResponsePending(r.bytes)
    ensures var response := Respond(w.ecu, request).bytes;
            var after := ModuleFrames(w, m, OnId(TX_ID, MessageFrames(request, false, number)));
            && after.open && !after.failed && after.pending == [] && after.want.NoLength?
            && after.dispatched == m.dispatched + [request] && m.sent <= after.sent
            && var heard := Heard(after.sent[|m.sent|..]);
               && Await(heard, NoLength, []) == Answer(response)
               && Responses(heard, NoLength, []) == [Ack(m.txSeq + |MessageFrames(response, false, m.txSeq)|)]
  {
    hide Respond, MessageFrames, ModuleFrames, Await, Responses;
    RequestRoundTrip(w, m, request, number);
    var ack := Ack(number + |MessageFrames(request, false, number)|);
    var response := Respond(w.ecu, request).bytes;
    var frames := MessageFrames(response, false, m.txSeq);
    var after := ModuleFrames(w, m, OnId(TX_ID, MessageFrames(request, false, number)));
    var heard := Heard(after.sent[|m.sent|..]);
    assert heard == [Received(true, ack)] + AsReceived(frames);
    AckIsNoise(ack[0], AsReceived(frames));
    MessageArrives(response, false, m.txSeq, []);
    MessageAcked(response, false, m.txSeq, []);
    assert AsReceived(frames) + [] == AsReceived(frames);
  }

  lemma AckIsNoise(ack: byte, more: seq<Received>)
    requires 0xB0 <= ack < 0xC0
    ensures Await([Received(true, [ack])] + more, NoLength, []) == Await(more, NoLength, [])
    ensures Responses([Received(true, [ack])] + more, NoLength, []) == Responses(more, NoLength, [])
  {
    var frames := [Received(true, [ack])] + more;
    assert frames[1..] == more;
    assert [] + Responses(more, NoLength, []) == Responses(more, NoLength, []);
  }

  // ---- how long an answer can be ----

  /** Data bytes behind the opcodes. */
  function Payload(frames: seq<Received>): nat
  {
    if frames == [] then 0
    else (if frames[0].data == [] then 0 else |frames[0].data| - 1) + Payload(frames[1..])
  }

  lemma {:induction false} AnswerIsBounded(frames: seq<Received>, want: Want, acc: seq<byte>)
    requires want.NoLength? ==> acc == []
    ensures var o := Await(frames, want, acc);
            o.Answer? ==> || |o.msg| + 2 <= Payload(frames)
                          || (want.Length? && |o.msg| == want.n <= |acc| + Payload(frames))
    decreases |frames|
  {
    if frames != [] {
      var d, more := frames[0].data, frames[1..];
      AnswerIsBounded(more, want, acc);
      if frames[0].own && IsData(d) && (want.Length? || |d| >= 3) {
        var n := if want.Length? then want.n else d[1] as int % 0x80 * 0x100 + d[2];
        var got := acc + (if want.Length? then d[1..] else d[3..]);
        AnswerIsBounded(more, Length(n), got);
        AnswerIsBounded(more, NoLength, []);
        if |got| >= n { assert |got[..n]| == n; }
      }
    }
  }

  /** The tester gets a message back exactly when it is shorter than 32768 bytes, the mask takes the top bit of a
      longer one's length away, and is no negative answer with code 0x78; one with any other code is returned. */
  lemma AnswerSizeLimit(msg: seq<byte>, number: nat)
    requires 1 <= |msg| <= LEN_MAX
    ensures Await(AsReceived(MessageFrames(msg, false, number)), NoLength, []) == Answer(msg)
       <==> |msg| <= 32767 && !(|msg| >= 3 && msg[0] == 0x7F && msg[2] == 0x78)
  {
    hide Await, MessageFrames;
    var frames := AsReceived(MessageFrames(msg, false, number));
    if |msg| <= ANSWER_MAX {
      MessageArrives(msg, false, number, []);
      NothingAnswers();
      assert frames + [] == frames;
    } else {
      LongMessageIsCut(msg, number);
    }
  }

  lemma NothingAnswers()
    ensures Await([], NoLength, []).NoAnswer?
  {
  }

  lemma {:induction false} PayloadOfFrames(chunks: seq<seq<byte>>, number: nat)
    ensures Payload(AsReceived(DataFrames(chunks, number))) == |Concat(chunks)|
    decreases |chunks|
  {
    var frames := AsReceived(DataFrames(chunks, number));
    if chunks != [] {
      PayloadOfFrames(chunks[1..], number + 1);
      assert frames[1..] == AsReceived(DataFrames(chunks[1..], number + 1));
    }
  }

  lemma LongMessageIsCut(msg: seq<byte>, number: nat)
    requires ANSWER_MAX < |msg| <= LEN_MAX
    ensures Await(AsReceived(MessageFrames(msg, false, number)), NoLength, []) != Answer(msg)
  {
    hide Framed, DataFrames, IsResponsePending;
    Pieces(msg, false);
    var parts := Sender.Split(Framed(msg, false), CHUNK);
    var first, rest := parts[0], AsReceived(DataFrames(parts[1..], number + 1));
    FirstPiece(msg, first);
    var n := first[0] as int % 0x80 * 0x100 + first[1];
    assert n == |msg| - 0x8000;
    FramesStep(parts, number);
    ReceivedStep(DataFrames(parts, number), []);
    var frames := AsReceived(DataFrames(parts, number));
    assert frames + [] == frames && rest + [] == rest;
    var d := DataFrame(|parts| == 1, number, first);
    assert frames == [Received(true, d)] + rest && frames[1..] == rest;
    assert d[3..] == first[2..] && d[1] == first[0] && d[2] == first[1];
    PayloadOfFrames(parts[1..], number + 1);
    AnswerIsBounded(rest, Length(n), [] + d[3..]);
    AnswerIsBounded(rest, NoLength, []);
  }
}
