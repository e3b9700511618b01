/** The device session in place: the accumulator, ten channels and the reply slot, as the reader
    thread and the callers change them under the lock. */
module Device {
  import opened Bytes
  import opened Proto
  import opened Channels
  import opened Stream
  import Queue
  import Slots

  /** What a decoded reply does: a frame goes to a channel, anything else to the reply slot. */
  function HandleAll(chs: seq<Chan>, slot: Slots.Slot, events: seq<Reply>): (out: (seq<Chan>, Slots.Slot))
    requires SaneAll(chs)
    ensures SaneAll(out.0)
    decreases |events|
  {
    if events == [] then (chs, slot)
    else if events[0].Frame? then HandleAll(Dispatch(chs, events[0]), slot, events[1..])
    else HandleAll(chs, Slots.Stash(slot, events[0]), events[1..])
  }

  function FramesIn(events: seq<Reply>): (frames: seq<Reply>)
    ensures forall i | 0 <= i < |frames| :: frames[i].Frame?
  {
    if events == [] then [] else (if events[0].Frame? then [events[0]] else []) + FramesIn(events[1..])
  }

  /** Replies between frames do not disturb the channels: they see the frames alone, in order. */
  lemma {:induction false} ChannelsSeeFrames(chs: seq<Chan>, slot: Slots.Slot, events: seq<Reply>)
    requires SaneAll(chs)
    ensures HandleAll(chs, slot, events).0 == DispatchAll(chs, FramesIn(events))
    decreases |events|
  {
    hide Dispatch, Slots.Stash;
    if events != [] {
      var r, more := events[0], events[1..];
      if r.Frame? {
        ChannelsSeeFrames(Dispatch(chs, r), slot, more);
        assert ([r] + FramesIn(more))[1..] == FramesIn(more);
      } else {
        ChannelsSeeFrames(chs, Slots.Stash(slot, r), more);
        assert FramesIn(events) == FramesIn(more);
      }
    }
  }

  /** What one read of the transport comes to. */
  datatype ReadOutcome = Data(bytes: seq<byte>) | TimedOut | Failed | Gone

  const FAILURES_MAX: nat := 50

  /** Whether a read after `failures` failed ones in a row makes the reader give the device up. */
  predicate GivesUp(st: ReadOutcome, failures: nat)
  {
    st.Gone? || (st.Failed? && failures + 1 >= FAILURES_MAX)
  }

  function FailuresAfter(st: ReadOutcome, failures: nat): nat
  {
    if st.Failed? then failures + 1 else if st.Data? && st.bytes == [] then failures else 0
  }

  function Piece(st: ReadOutcome): seq<seq<byte>>
  {
    if st.Data? && st.bytes != [] then [st.bytes] else []
  }

  /** The non-empty reads up to the loss of the device. */
  function DataBeforeLoss(script: seq<ReadOutcome>, failures: nat): seq<seq<byte>>
    decreases |script|
  {
    if script == [] || GivesUp(script[0], failures) then []
    else Piece(script[0]) + DataBeforeLoss(script[1..], FailuresAfter(script[0], failures))
  }

  predicate LosesDevice(script: seq<ReadOutcome>, failures: nat)
    decreases |script|
  {
    script != [] && (GivesUp(script[0], failures) || LosesDevice(script[1..], FailuresAfter(script[0], failures)))
  }

  datatype Status = OK | TIMEOUT | NO_DEVICE | PARAM

  /** Ten closed channels. */
  method MakeChannels(capacity: nat) returns (ch: seq<Queue.Channel>)
    requires capacity > 0
    ensures |ch| == CHANNELS
    ensures forall i | 0 <= i < CHANNELS :: fresh(ch[i]) && ch[i].Valid() && ch[i].rq == null && !ch[i].open
    ensures forall i, j | 0 <= i < j < CHANNELS :: ch[i] != ch[j]
  {
    ch := [];
    while |ch| < CHANNELS
      invariant |ch| <= CHANNELS
      invariant forall i | 0 <= i < |ch| :: fresh(ch[i]) && ch[i].Valid() && ch[i].rq == null && !ch[i].open
      invariant forall i, j | 0 <= i < j < |ch| :: ch[i] != ch[j]
    {
      var c := new Queue.Channel(capacity);
      ch := ch + [c];
    }
  }

  ghost function RingSet(rings: seq<array?<byte>>): set<object>
  {
    set i | 0 <= i < |rings| && rings[i] != null :: rings[i] as object
  }

  class Session {
    var open: bool
    var lost: bool
    const accum: array<byte>
    var accumLen: nat
    const ch: seq<Queue.Channel>
    const slot: Slots.ReplySlot

    constructor (capacity: nat)
      requires capacity > 0
      ensures Valid() && accumLen == 0 && fresh(accum) && fresh(slot) && forall i | 0 <= i < CHANNELS :: fresh(ch[i])
    {
      accum := new byte[ACCUM_CAP](_ => 0);
      var made := MakeChannels(capacity);
      ch := made;
      slot := new Slots.ReplySlot();
      open, lost, accumLen := false, false, 0;
    }

    ghost predicate Valid()
      reads this, accum, slot, ch, Rings()
    {
      && accum.Length == ACCUM_CAP && accumLen <= ACCUM_CAP
      && |ch| == CHANNELS
      && (forall i | 0 <= i < CHANNELS :: ch[i].Valid() && ch[i].rq != accum)
      && (forall i, j | 0 <= i < j < CHANNELS :: ch[i] != ch[j] && (ch[i].rq == null || ch[i].rq != ch[j].rq))
    }

    /** The ring buffers, channel by channel, and those that exist. */
    ghost function RingList(): seq<array?<byte>>
      reads ch
    {
      seq(|ch|, i requires 0 <= i < |ch| reads ch => ch[i].rq)
    }

    ghost function Rings(): (rings: set<object>)
      reads ch
      ensures forall i | 0 <= i < |ch| && ch[i].rq != null :: ch[i].rq as object in rings
    {
      assert forall i | 0 <= i < |ch| :: RingList()[i] == ch[i].rq;
      RingSet(RingList())
    }

    twostate lemma SameRings()
      requires |ch| == CHANNELS && forall i | 0 <= i < CHANNELS :: ch[i].rq == old(ch[i].rq)
      ensures RingList() == old(RingList())
    {
    }

    ghost function Chans(): (chs: seq<Chan>)
      reads ch
    {
      seq(|ch|, i requires 0 <= i < |ch| reads ch => ch[i].Abs())
    }

    /** Changing one channel and its ring leaves the others as they were. */
    twostate lemma OnlyChannelChanged(i: nat)
      requires i < CHANNELS && old(Valid()) && unchanged(this)
      requires ch[i].Valid() && ch[i].rq == old(ch[i].rq)
      requires forall j | 0 <= j < CHANNELS && j != i :: unchanged(ch[j]) && (ch[j].rq != null ==> unchanged(ch[j].rq))
      ensures Valid() && Chans() == old(Chans())[i := ch[i].Abs()]
      ensures forall j | 0 <= j < CHANNELS :: ch[j].rq == old(ch[j].rq)
    {
    }

    /** absorb_frame. */
    method AbsorbFrame(r: Reply)
      requires Valid() && r.Frame?
      modifies ch, Rings()
      ensures Valid() && SaneAll(old(Chans())) && Chans() == Dispatch(old(Chans()), r)
      ensures RingList() == old(RingList())
    {
      hide Absorb, AbsorbEcho, QueueFrame, RingSet;
      assert SaneAll(Chans());
      if r.channel >= CHANNELS { return; }
      if ch[r.channel].open {
        AbsorbOwn(r.channel, r);
        return;
      }
      var can, iso := ProtocolChannel(CAN), ProtocolChannel(ISO15765);
      if r.channel == can && HasBit(r.status, STS_LOOPBACK) && ch[iso].open {
        AbsorbEchoed(iso, r);
      }
    }

    method AbsorbOwn(i: nat, r: Reply)
      requires Valid() && i < CHANNELS && ch[i].open && r.Frame?
      modifies ch[i], if ch[i].rq != null then {ch[i].rq} else {}
      ensures Valid() && old(Chans())[i].Sane() && Chans() == old(Chans())[i := Absorb(old(Chans())[i], r)]
      ensures RingList() == old(RingList())
    {
      hide Absorb;
      ch[i].AbsorbFrame(r);
      OnlyChannelChanged(i);
      SameRings();
    }

    method AbsorbEchoed(i: nat, r: Reply)
      requires Valid() && i < CHANNELS && ch[i].open && r.Frame?
      modifies ch[i], if ch[i].rq != null then {ch[i].rq} else {}
      ensures Valid() && Chans() == old(Chans())[i := AbsorbEcho(old(Chans())[i], r)]
      ensures RingList() == old(RingList())
    {
      hide QueueFrame;
      ch[i].PushFrame(CAN, r, RxStatus(true, false, false, false, HasBit(r.status, STS_29BIT)), false, true);
      OnlyChannelChanged(i);
      SameRings();
    }

    ghost function State(): (seq<Chan>, Slots.Slot)
      reads ch, slot
    {
      (Chans(), slot.Abs())
    }

    /** One decoded reply. */
    method Handle(r: Reply)
      requires Valid()
      modifies slot, ch, Rings()
      ensures Valid() && SaneAll(old(Chans()))
      ensures State() == HandleAll(old(Chans()), old(slot.Abs()), [r])
      ensures RingList() == old(RingList())
    {
      hide Dispatch, Slots.Stash;
      assert SaneAll(Chans());
      assert [r][1..] == [];
      if r.Frame? {
        AbsorbFrame(r);
      } else {
        slot.StashReply(r);
        assert Chans() == old(Chans());
      }
    }

    /** One turn of consume_accum's loop: how many bytes it passes, none when more are needed. */
    method Turn(left: seq<byte>) returns (step: nat)
      requires Valid()
      modifies slot, ch, Rings()
      ensures Valid() && SaneAll(old(Chans())) && RingList() == old(RingList())
      ensures step == if Parse(left).used == 0 then 0 else StepOver(left)
      ensures State() == HandleAll(old(Chans()), old(slot.Abs()), Emits(left))
    {
      hide Parse, HandleAll, ResyncOffset;
      assert SaneAll(Chans());
      HandledNothing(Chans(), slot.Abs());
      var p := OpParse(left);
      step := p.used;
      if p.used > 0 {
        if p.reply.Junk? {
          var skip := OpResyncOffset(left);
          if skip > step { step := skip; }
        } else {
          Handle(p.reply);
        }
      }
    }

    /** A turn on top of `done`, handled since the state was `chs` and `was`. */
    method TurnMore(left: seq<byte>, ghost done: seq<Reply>, ghost chs: seq<Chan>, ghost was: Slots.Slot) returns (step: nat)
      requires Valid() && SaneAll(chs) && State() == HandleAll(chs, was, done)
      modifies slot, ch, Rings()
      ensures Valid() && RingList() == old(RingList())
      ensures step == if Parse(left).used == 0 then 0 else StepOver(left)
      ensures State() == HandleAll(chs, was, done + Emits(left))
    {
      hide Parse, HandleAll, StepOver, Emits;
      HandledAppend(chs, was, done, Emits(left));
      step := Turn(left);
    }

    /** The loop of consume_accum over the accumulated bytes. */
    method Drain(buf: seq<byte>) returns (off: nat)
      requires Valid()
      modifies slot, ch, Rings()
      ensures Valid() && SaneAll(old(Chans())) && RingList() == old(RingList())
      ensures off <= |buf| && buf[off..] == Consume(buf).rest
      ensures State() == HandleAll(old(Chans()), old(slot.Abs()), Consume(buf).events)
    {
      hide Parse, HandleAll, StepOver, Emits, Consume, Drained;
      off := 0;
      ghost var done: seq<Reply> := [];
      assert SaneAll(Chans());
      hide Valid, SaneAll, RingSet, State;
      HandledSoFar();
      DrainStarts(buf);
      while off < |buf|
        invariant off <= |buf| && Valid() && RingList() == old(RingList())
        invariant Drained(buf, off, done)
        invariant State() == HandleAll(old(Chans()), old(slot.Abs()), done)
      {
        DrainSteps(buf, off, done);
        var step := TurnMore(buf[off..], done, old(Chans()), old(slot.Abs()));
        done := done + Emits(buf[off..]);
        if step == 0 { return; }
        off := off + step;
      }
      DrainEnds(buf, done);
    }

    lemma HandledSoFar()
      requires Valid()
      ensures SaneAll(Chans()) && State() == HandleAll(Chans(), slot.Abs(), [])
    {
      assert SaneAll(Chans());
      HandledNothing(Chans(), slot.Abs());
    }

    /** consume_accum. */
    method ConsumeAccum()
      requires Valid()
      modifies this`accumLen, accum, slot, ch, Rings()
      ensures Valid() && SaneAll(old(Chans())) && RingList() == old(RingList())
      ensures var c := Consume(old(accum[..accumLen]));
              && accum[..accumLen] == (if |c.rest| == ACCUM_CAP then [] else c.rest)
              && State() == HandleAll(old(Chans()), old(slot.Abs()), c.events)
    {
      hide Consume, HandleAll;
      var off := Drain(accum[..accumLen]);
      Settle(off);
    }

    /** The memmove to the front, and the discard of an accumulator still full after it. */
    method Settle(off: nat)
      requires Valid() && off <= accumLen
      modifies this`accumLen, accum
      ensures Valid() && State() == old(State()) && RingList() == old(RingList())
      ensures var rest := old(accum[..accumLen])[off..];
              accum[..accumLen] == if |rest| == ACCUM_CAP then [] else rest
    {
      if off > 0 {
        forall i | 0 <= i < accumLen - off { accum[i] := accum[off + i]; }
        accumLen := accumLen - off;
      }
      assert accum[..accumLen] == old(accum[..accumLen])[off..];
      if accumLen == ACCUM_CAP { accumLen := 0; }
    }

    /** What reader_main does with one successful read: append what there is room for, consume. */
    method TakeRead(chunk: seq<byte>)
      requires Valid()
      modifies this`accumLen, accum, slot, ch, Rings()
      ensures Valid() && SaneAll(old(Chans())) && RingList() == old(RingList())
      ensures var r := Feed(Reader(old(accum[..accumLen]), []), chunk);
              accum[..accumLen] == r.accum && State() == HandleAll(old(Chans()), old(slot.Abs()), r.emitted)
    {
      hide Consume, HandleAll;
      var take := ACCUM_CAP - accumLen;
      if |chunk| < take { take := |chunk|; }
      Append(chunk[..take]);
      ConsumeAccum();
      assert [] + Consume(old(accum[..accumLen]) + chunk[..take]).events == Consume(old(accum[..accumLen]) + chunk[..take]).events;
    }

    /** The memcpy behind what is there. */
    method Append(bytes: seq<byte>)
      requires Valid() && accumLen + |bytes| <= ACCUM_CAP
      modifies this`accumLen, accum
      ensures Valid() && accum[..accumLen] == old(accum[..accumLen]) + bytes && State() == old(State())
      ensures RingList() == old(RingList())
    {
      hide Queue.Channel.Valid;
      forall i | 0 <= i < |bytes| { accum[accumLen + i] := bytes[i]; }
      accumLen := accumLen + |bytes|;
    }

    /** Bytes that the slot only borrowed do not last: once the record they came in has been consumed, the
        memcpy of the next read puts its own bytes where they lay, whatever the slot holds. */
    method NextReadOverwrites(rec: seq<byte>, next: seq<byte>, at: nat, n: nat)
      requires Valid() && accumLen == 0 && |rec| <= READ_MAX && Consume(rec).rest == []
      requires |next| <= READ_MAX && at + n <= |next|
      modifies this`accumLen, accum, slot, ch, Rings()
      ensures Valid() && SaneAll(old(Chans()))
      ensures slot.Abs() == HandleAll(old(Chans()), old(slot.Abs()), Consume(rec).events).1
      ensures accum[at..at + n] == next[at..at + n]
    {
      hide Consume, HandleAll;
      assert accum[..accumLen] == [] && [] + rec[..|rec|] == rec && [] + Consume(rec).events == Consume(rec).events;
      TakeRead(rec);
      Append(next);
      assert accum[..accumLen] == next;
    }

    /** reader_main: reads until told to stop (the end of `script`), until the device is gone, or
        until fifty reads in a row have failed. Everything read before that has been handled, as the
        whole stream decodes. */
    method ReaderMain(script: seq<ReadOutcome>)
      requires Valid() && accumLen == 0
      modifies this`accumLen, this`lost, accum, slot, ch, Rings()
      ensures Valid() && SaneAll(old(Chans())) && RingList() == old(RingList())
      ensures Handled(old(Chans()), old(slot.Abs()), DataBeforeLoss(script, 0))
      ensures lost == (old(lost) || LosesDevice(script, 0))
    {
      hide Handled, Progress, DataBeforeLoss, LosesDevice, FeedAll, HandleAll, Queue.Channel.Valid;
      var failures, i := 0, 0;
      ghost var done: seq<seq<byte>> := [];
      NothingHandled();
      NothingRead(script);
      while i < |script|
        invariant i <= |script| && failures < FAILURES_MAX && Valid() && RingList() == old(RingList()) && lost == old(lost)
        invariant Progress(script, i, failures, done)
        invariant Handled(old(Chans()), old(slot.Abs()), done)
      {
        var st := script[i];
        ReadOne(script, i, failures, done);
        assert done + [] == done;
        i := i + 1;
        if st.TimedOut? {
          failures := 0;
        } else {
          if st.Failed? { failures := failures + 1; }
          if st.Gone? || failures >= FAILURES_MAX {
            GiveUp(old(Chans()), old(slot.Abs()), done);
            return;
          }
          if st.Data? && st.bytes != [] {
            failures := 0;
            TakeMore(done, st.bytes, old(Chans()), old(slot.Abs()));
            done := done + [st.bytes];
          }
        }
      }
      AllRead(script, failures, done);
    }

    /** Everything in the reads `done` has been handled, since the state was `chs` and `was`. */
    ghost predicate Handled(chs: seq<Chan>, was: Slots.Slot, done: seq<seq<byte>>)
      requires SaneAll(chs) && accumLen <= accum.Length
      reads this`accumLen, accum, slot, ch
    {
      accum[..accumLen] == FeedAll(done).accum && State() == HandleAll(chs, was, FeedAll(done).emitted)
    }

    lemma NothingHandled()
      requires Valid() && accumLen == 0
      ensures SaneAll(Chans()) && Handled(Chans(), slot.Abs(), [])
    {
      hide HandleAll;
      assert SaneAll(Chans());
      HandledNothing(Chans(), slot.Abs());
    }

    /** The device is gone; waiters will find it so. */
    method GiveUp(ghost chs: seq<Chan>, ghost was: Slots.Slot, ghost done: seq<seq<byte>>)
      requires Valid() && SaneAll(chs) && Handled(chs, was, done)
      modifies this`lost
      ensures Valid() && lost && RingList() == old(RingList()) && Handled(chs, was, done)
    {
      hide FeedAll, HandleAll;
      lost := true;
    }

    /** One more read on top of those. */
    method TakeMore(ghost done: seq<seq<byte>>, bytes: seq<byte>, ghost chs: seq<Chan>, ghost was: Slots.Slot)
      requires Valid() && SaneAll(chs) && Handled(chs, was, done)
      modifies this`accumLen, accum, slot, ch, Rings()
      ensures Valid() && RingList() == old(RingList()) && Handled(chs, was, done + [bytes])
    {
      hide Feed, FeedAll, HandleAll;
      FeedsOneMore(done, bytes);
      HandledAppend(chs, was, FeedAll(done).emitted, Feed(Reader(FeedAll(done).accum, []), bytes).emitted);
      TakeRead(bytes);
    }

    /** The session as a value. */
    ghost function World(): (w: World)
      requires Valid()
      reads this, accum, slot, ch, Rings()
      ensures Sane(w)
    {
      Snapshot(open, lost, Chans(), slot.Abs(), accum[..accumLen], RingNumbers(RingList()))
    }

    /** Rings are kept once they are there, and may be added. */
    twostate predicate RingsKept()
      reads ch
    {
      && (forall i | 0 <= i < |ch| :: ch[i].rq == old(ch[i].rq) || (old(ch[i].rq) == null && ch[i].rq != null && fresh(ch[i].rq)))
      && forall o <- Rings() :: o in old(Rings()) || fresh(o)
    }

    /** Changing one channel, which may give it a ring, leaves the others as they were. */
    twostate lemma OnlyChannelOpened(i: nat)
      requires i < CHANNELS && old(Valid()) && unchanged(this) && unchanged(accum) && unchanged(slot) && ch[i].Valid()
      requires ch[i].rq == old(ch[i].rq) || (old(ch[i].rq) == null && ch[i].rq != null && fresh(ch[i].rq))
      requires forall j | 0 <= j < CHANNELS && j != i :: unchanged(ch[j]) && (ch[j].rq != null ==> unchanged(ch[j].rq))
      ensures Valid() && RingsKept()
      ensures World() == Put(old(World()), i, ch[i].Abs()).(rings := old(World()).rings + if ch[i].rq != null then {i} else {})
    {
      hide Queue.Channel.Valid, RingSet;
      OthersStay(i);
      OneRingMore(i);
      NumbersAfter(old(RingList()), i, ch[i].rq);
    }

    twostate lemma OthersStay(i: nat)
      requires i < CHANNELS && old(Valid()) && unchanged(this) && unchanged(accum) && unchanged(slot) && ch[i].Valid()
      requires ch[i].rq == old(ch[i].rq) || (old(ch[i].rq) == null && ch[i].rq != null && fresh(ch[i].rq))
      requires forall j | 0 <= j < CHANNELS && j != i :: unchanged(ch[j]) && (ch[j].rq != null ==> unchanged(ch[j].rq))
      ensures Valid() && Chans() == old(Chans())[i := ch[i].Abs()]
    {
      hide RingSet;
    }

    twostate lemma OneRingMore(i: nat)
      requires i < |ch| && (ch[i].rq == old(ch[i].rq) || (old(ch[i].rq) == null && ch[i].rq != null && fresh(ch[i].rq)))
      requires forall j | 0 <= j < |ch| && j != i :: ch[j].rq == old(ch[j].rq)
      ensures RingsKept() && RingList() == old(RingList())[i := ch[i].rq]
    {
      assert forall j | 0 <= j < |ch| :: RingList()[j] == ch[j].rq && old(RingList())[j] == old(ch[j].rq);
    }

    /** What goes on while a receiver sleeps, one thing at a time. */
    method Happen(e: Event)
      requires Valid()
      modifies this`open, this`lost, this`accumLen, accum, slot, ch, Rings()
      ensures Valid() && World() == After(old(World()), e) && RingsKept()
    {
      match e
      case Read(chunk) => ReadHappens(chunk);
      case Lose => Flag(open, true);
      case Shut => Flag(false, lost);
      case PopBy(j) => if j < CHANNELS { PopElsewhere(j); }
      case Flush(j) => if j < CHANNELS { FlushChannel(j); }
      case OpenAs(j, protocol, memory) => if j < CHANNELS { var ok := OpenChannel(j, protocol, memory); }
      case CloseOne(j) => if j < CHANNELS { CloseChannel(j); }
      case DropsTaken(j) => if j < CHANNELS { var n := TakeDropped(j); }
      case Claimed(wait, number, verb) => ClaimSlot(wait, number, verb);
      case Collected => CollectReply();
    }

    method ReadHappens(chunk: seq<byte>)
      requires Valid()
      modifies this`accumLen, accum, slot, ch, Rings()
      ensures Valid() && World() == After(old(World()), Read(chunk)) && RingsKept()
    {
      hide HandleAll, Feed, Chans;
      TakeRead(chunk);
      SameListKept();
    }

    twostate lemma SameListKept()
      requires RingList() == old(RingList())
      ensures RingsKept()
    {
      assert forall i | 0 <= i < |ch| :: RingList()[i] == ch[i].rq && old(RingList())[i] == old(ch[i].rq);
    }

    method Flag(nowOpen: bool, nowLost: bool)
      requires Valid()
      modifies this`open, this`lost
      ensures Valid() && World() == old(World()).(open := nowOpen, lost := nowLost) && RingsKept()
    {
      open, lost := nowOpen, nowLost;
    }

    /** Another receiver takes a message. */
    method PopElsewhere(j: nat)
      requires Valid() && j < CHANNELS
      modifies ch[j]
      ensures Valid() && World() == Popped(old(World()), j) && RingsKept()
    {
      var out := new Queue.Message();
      var st := TakeMessage(j, out);
    }

    /** op_device_flush_channel. */
    method FlushChannel(j: nat)
      requires Valid() && j < CHANNELS
      modifies ch[j]
      ensures Valid() && World() == After(old(World()), Flush(j)) && RingsKept()
    {
      ch[j].Flush();
      OnlyChannelOpened(j);
      SameNumbers(j);
    }

    /** op_device_open_channel. */
    method OpenChannel(j: nat, protocol: u32, memory: bool) returns (ok: bool)
      requires Valid() && j < CHANNELS
      modifies ch[j]
      ensures Valid() && World() == After(old(World()), OpenAs(j, protocol, memory)) && RingsKept()
      ensures ok == (j in old(World()).rings || memory)
    {
      hide Queue.Channel.Valid;
      SameNumbers(j);
      ok := ch[j].Open(protocol, memory);
      OnlyChannelOpened(j);
      SameNumbers(j);
    }

    /** op_device_close_channel. */
    method CloseChannel(j: nat)
      requires Valid() && j < CHANNELS
      modifies ch[j]
      ensures Valid() && World() == After(old(World()), CloseOne(j)) && RingsKept()
    {
      ch[j].Close();
      OnlyChannelOpened(j);
      SameNumbers(j);
    }

    /** op_device_take_dropped. */
    method TakeDropped(j: nat) returns (n: nat)
      requires Valid() && j < CHANNELS
      modifies ch[j]
      ensures Valid() && World() == After(old(World()), DropsTaken(j)) && RingsKept()
      ensures n == if open then old(ch[j].dropped) else 0
    {
      if !open { return 0; }
      n := ch[j].TakeDropped();
      OnlyChannelOpened(j);
      SameNumbers(j);
    }

    lemma SameNumbers(j: nat)
      requires |ch| == CHANNELS && j < CHANNELS
      ensures j in RingNumbers(RingList()) <==> ch[j].rq != null
      ensures j in RingNumbers(RingList()) ==> RingNumbers(RingList()) + {j} == RingNumbers(RingList())
      ensures RingNumbers(RingList()) + {} == RingNumbers(RingList())
    {
      assert RingList()[j] == ch[j].rq;
    }

    method ClaimSlot(wait: bool, number: u32, verb: byte)
      requires Valid()
      modifies slot
      ensures Valid() && World() == After(old(World()), Claimed(wait, number, verb)) && RingsKept()
    {
      slot.Claim(wait, number, verb);
    }

    method CollectReply()
      requires Valid()
      modifies slot
      ensures Valid() && World() == After(old(World()), Collected) && RingsKept()
    {
      var got, r := slot.Collect();
    }

    method HappenAll(es: seq<Event>)
      requires Valid()
      modifies this`open, this`lost, this`accumLen, accum, slot, ch, Rings()
      ensures Valid() && World() == AfterAll(old(World()), es) && RingsKept()
      decreases |es|
    {
      hide After, Chans, Valid, World, RingSet, Sane;
      if es == [] { return; }
      Happen(es[0]);
      HappenAll(es[1..]);
    }

    /** The session has gone through the first `k` waits since it was `was`. */
    ghost predicate Slept(was: World, waits: seq<seq<Event>>, k: nat)
      requires Valid() && Sane(was) && k <= |waits|
      reads this, accum, slot, ch, Rings()
    {
      World() == AfterAll(was, Concat(waits[..k]))
    }

    method SleepOnce(w: seq<Event>, ghost was: World, ghost waits: seq<seq<Event>>, ghost k: nat)
      requires Valid() && Sane(was) && k < |waits| && w == waits[k] && Slept(was, waits, k)
      modifies this`open, this`lost, this`accumLen, accum, slot, ch, Rings()
      ensures Valid() && RingsKept() && Slept(was, waits, k + 1)
    {
      hide AfterAll, Concat, Chans, After;
      WaitedMore(was, waits, k);
      HappenAll(w);
    }

    /** The wait of op_device_pop: `waits` is what happens between one look at the queue and the next,
        and at their end the time is up. `used` is how many times it slept. */
    method WaitForMessage(channel: nat, timeout: nat, waits: seq<seq<Event>>) returns (used: nat)
      requires Valid() && channel < CHANNELS
      modifies this`open, this`lost, this`accumLen, accum, slot, ch, Rings()
      ensures Valid() && RingsKept() && used <= |waits| && Slept(old(World()), waits, used)
      ensures used < |waits| && timeout > 0 ==> !NothingYet(World(), channel)
      ensures used > 0 ==> timeout > 0 && NothingYet(old(World()), channel)
    {
      hide Slept, World, NothingYet, Queue.Channel.Abs, Valid, Sane, RingSet;
      TenChannels();
      used := 0;
      NothingSlept(waits);
      LookedAt(channel);
      while timeout > 0 && ch[channel].qcount == 0 && open && !lost && used < |waits|
        invariant used <= |waits| && Valid() && RingsKept() && Slept(old(World()), waits, used)
        invariant used > 0 ==> timeout > 0 && NothingYet(old(World()), channel)
        invariant used == 0 ==> World() == old(World())
      {
        LookedAt(channel);
        SleepOnce(waits[used], old(World()), waits, used);
        used := used + 1;
      }
      LookedAt(channel);
    }

    lemma TenChannels()
      requires Valid()
      ensures |ch| == CHANNELS && |World().chs| == CHANNELS
    {
    }

    /** The flags of the session and of its value. */
    lemma FlagsShow()
      requires Valid()
      ensures |World().chs| == CHANNELS && World().open == open && World().lost == lost
    {
    }

    lemma ChannelShows(j: nat)
      requires Valid() && j < CHANNELS
      ensures |ch| == CHANNELS == |World().chs| && World().chs[j] == ch[j].Abs()
    {
    }

    lemma NothingSlept(waits: seq<seq<Event>>)
      requires Valid()
      ensures Slept(World(), waits, 0)
    {
      NothingWaited(World(), waits);
    }

    /** What a look at the fields says of the session. */
    lemma LookedAt(channel: nat)
      requires Valid() && channel < CHANNELS
      ensures NothingYet(World(), channel) <==> ch[channel].qcount == 0 && open && !lost
    {
      assert Chans()[channel] == ch[channel].Abs();
    }

    /** op_device_pop once its wait is over: a closed or lost device wins over queued messages. */
    method TakeMessage(channel: nat, out: Queue.Message) returns (st: Status)
      requires Valid() && channel < CHANNELS && out.data.Length == MSG_MAX && out.data != accum
      requires forall i | 0 <= i < CHANNELS :: out.data != ch[i].rq
      modifies ch[channel], out, out.data
      ensures Valid() && RingsKept() && World() == Popped(old(World()), channel)
      ensures st == Verdict(old(World()), channel)
      ensures st == OK ==> out.Holds(old(World()).chs[channel].queue[0])
    {
      hide RingSet, Queue.Channel.Valid, Queue.Message.Holds;
      LookedAt(channel);
      if !open || lost { return NO_DEVICE; }
      if ch[channel].qcount == 0 { return TIMEOUT; }
      ch[channel].TakeOldest(out);
      OnlyChannelOpened(channel);
      SameNumbers(channel);
      return OK;
    }

    /** op_device_pop. */
    method Pop(channel: nat, out: Queue.Message, timeout: nat, waits: seq<seq<Event>>) returns (st: Status, used: nat)
      requires Valid() && out.data.Length == MSG_MAX && out.data != accum
      requires forall i | 0 <= i < CHANNELS :: out.data != ch[i].rq
      modifies this`open, this`lost, this`accumLen, accum, slot, ch, Rings(), out, out.data
      ensures Valid() && RingsKept() && used <= |waits|
      ensures channel >= CHANNELS ==> st == PARAM && used == 0 && World() == old(World())
      ensures channel < CHANNELS ==>
                var w := AfterAll(old(World()), Concat(waits[..used]));
                && st == Verdict(w, channel) && World() == Popped(w, channel)
                && (st == OK ==> out.Holds(w.chs[channel].queue[0]))
      ensures channel < CHANNELS && st == TIMEOUT ==> timeout == 0 || used == |waits|
      ensures used > 0 ==> channel < CHANNELS && timeout > 0 && NothingYet(old(World()), channel)
    {
      hide AfterAll, Concat, Valid, World, RingSet, Verdict, Popped, NothingYet, Queue.Message.Holds;
      TenChannels();
      if channel >= CHANNELS { return PARAM, 0; }
      used := WaitForMessage(channel, timeout, waits);
      TenChannels();
      VerdictIs(World(), channel);
      st := TakeMessage(channel, out);
    }
  }

  lemma NumbersAfter(rings: seq<array?<byte>>, i: nat, r: array?<byte>)
    requires i < |rings| && (rings[i] != null ==> r != null)
    ensures RingNumbers(rings[i := r]) == RingNumbers(rings) + if r != null then {i} else {}
  {
  }

  function RingNumbers(rings: seq<array?<byte>>): set<nat>
  {
    set i | 0 <= i < |rings| && rings[i] != null
  }

  /** A session as a value: `rings` are the channels that have their ring. */
  datatype World = Snapshot(open: bool, lost: bool, chs: seq<Chan>, slot: Slots.Slot, acc: seq<byte>, rings: set<nat>)

  ghost predicate Sane(w: World) { SaneAll(w.chs) && |w.acc| <= ACCUM_CAP }

  /** What the reader and other threads do under the lock: a read, the loss of the device, its close, another
      receiver's pop, the flush, opening and closing of a channel, the taking of a loss count, a command's
      claim of the reply slot and its collecting of the reply. */
  datatype Event =
    | Read(chunk: seq<byte>)
    | Lose
    | Shut
    | PopBy(channel: nat)
    | Flush(channel: nat)
    | OpenAs(channel: nat, protocol: u32, memory: bool)
    | CloseOne(channel: nat)
    | DropsTaken(channel: nat)
    | Claimed(wait: bool, number: u32, verb: byte)
    | Collected

  function Emptied(c: Chan): Chan
  {
    c.(queue := [], partialActive := false, extAnnounced := false, dropped := 0)
  }

  function Put(w: World, j: nat, c: Chan): World
    requires j < |w.chs|
  {
    w.(chs := w.chs[j := c])
  }

  ghost function After(w: World, e: Event): (w': World)
    requires Sane(w)
    ensures Sane(w')
  {
    match e
    case Read(chunk) =>
      var r := Feed(Reader(w.acc, []), chunk);
      var (chs, slot) := HandleAll(w.chs, w.slot, r.emitted);
      w.(chs := chs, slot := slot, acc := r.accum)
    case Lose => w.(lost := true)
    case Shut => w.(open := false)
    case PopBy(j) => Popped(w, j)
    case Flush(j) => if j < CHANNELS then Put(w, j, Emptied(w.chs[j])) else w
    case OpenAs(j, protocol, memory) =>
      if j >= CHANNELS then w
      else
        var ok := j in w.rings || memory;
        Put(w, j, Chan(ok, if ok then protocol else 0, Msg(0, PLAIN, 0, 0, 0, []), false, false, [], 0, w.chs[j].capacity))
        .(rings := w.rings + if ok then {j} else {})
    case CloseOne(j) => if j < CHANNELS then Put(w, j, Emptied(w.chs[j]).(open := false)) else w
    case DropsTaken(j) => if j < CHANNELS && w.open then Put(w, j, w.chs[j].(dropped := 0)) else w
    case Claimed(wait, number, verb) => w.(slot := Slots.Slot(wait, false, number, verb, w.slot.reply, w.slot.borrowed))
    case Collected => w.(slot := w.slot.(waiting := false, valid := false))
  }

  ghost function AfterAll(w: World, es: seq<Event>): (w': World)
    requires Sane(w)
    ensures Sane(w')
    decreases |es|
  {
    if es == [] then w else AfterAll(After(w, es[0]), es[1..])
  }

  /** What a receiver sleeps on. */
  predicate NothingYet(w: World, channel: nat)
    requires channel < |w.chs|
  {
    w.open && !w.lost && w.chs[channel].queue == []
  }

  function Verdict(w: World, channel: nat): Status
    requires channel < |w.chs|
  {
    if !w.open || w.lost then NO_DEVICE else if w.chs[channel].queue == [] then TIMEOUT else OK
  }

  lemma VerdictIs(w: World, channel: nat)
    requires channel < |w.chs|
    ensures Verdict(w, channel) == TIMEOUT <==> NothingYet(w, channel)
    ensures Verdict(w, channel) == OK ==> w.chs[channel].queue != []
  {
  }

  /** The session after a pop that did not have to wait. */
  function Popped(w: World, channel: nat): World
  {
    if channel < |w.chs| && Verdict(w, channel) == OK
    then Put(w, channel, w.chs[channel].(queue := w.chs[channel].queue[1..])) else w
  }

  lemma {:induction false} AfterAllAppends(w: World, a: seq<Event>, b: seq<Event>)
    requires Sane(w)
    ensures AfterAll(w, a + b) == AfterAll(AfterAll(w, a), b)
    decreases |a|
  {
    hide After;
    if a == [] {
      assert a + b == b;
    } else {
      AfterAllAppends(After(w, a[0]), a[1..], b);
      assert (a + b)[1..] == a[1..] + b;
    }
  }

  lemma NothingWaited(w: World, waits: seq<seq<Event>>)
    requires Sane(w)
    ensures AfterAll(w, Concat(waits[..0])) == w
  {
  }

  lemma WaitedMore(w: World, waits: seq<seq<Event>>, k: nat)
    requires Sane(w) && k < |waits|
    ensures AfterAll(w, Concat(waits[..k + 1])) == AfterAll(AfterAll(w, Concat(waits[..k])), waits[k])
  {
    hide AfterAll;
    assert waits[..k + 1] == waits[..k] + [waits[k]];
    ConcatAppend(waits[..k], [waits[k]]);
    assert Concat([waits[k]]) == waits[k];
    AfterAllAppends(w, Concat(waits[..k]), waits[k]);
  }

  /** `done` came from the first `off` bytes, and the rest of the result from the others. */
  ghost predicate Drained(buf: seq<byte>, off: nat, done: seq<Reply>)
  {
    && off <= |buf|
    && Consume(buf).events == done + Consume(buf[off..]).events
    && Consume(buf).rest == Consume(buf[off..]).rest
  }

  lemma DrainStarts(buf: seq<byte>)
    ensures Drained(buf, 0, [])
  {
    hide Consume;
    assert buf[0..] == buf;
  }

  lemma DrainSteps(buf: seq<byte>, off: nat, done: seq<Reply>)
    requires Drained(buf, off, done)
    ensures var left := buf[off..];
            if Parse(left).used == 0 then left == Consume(buf).rest && done + Emits(left) == Consume(buf).events
            else Drained(buf, off + StepOver(left), done + Emits(left))
  {
    hide Parse, Consume, StepOver;
    var left := buf[off..];
    ConsumeUnfolds(left);
    if Parse(left).used > 0 {
      var step := StepOver(left);
      assert left[step..] == buf[off + step..];
      Regroup(done, Emits(left), Consume(buf[off + step..]).events);
    }
  }

  /** What one turn of the loop hands on. */
  function Emits(buf: seq<byte>): seq<Reply>
  {
    if Parse(buf).used == 0 || Parse(buf).reply.Junk? then [] else [Parse(buf).reply]
  }

  /** Bytes one turn of the loop passes. */
  function StepOver(buf: seq<byte>): (n: nat)
    requires Parse(buf).used > 0
    ensures 0 < n <= |buf|
  {
    if Parse(buf).reply.Junk? then JunkSkip(buf) else Parse(buf).used
  }

  lemma Regroup(a: seq<Reply>, b: seq<Reply>, c: seq<Reply>)
    ensures a + (b + c) == a + b + c
  {
  }

  lemma ConsumeUnfolds(buf: seq<byte>)
    ensures if Parse(buf).used == 0 then Consume(buf) == Consumed([], buf, true)
            else
              var more := Consume(buf[StepOver(buf)..]);
              Consume(buf).events == Emits(buf) + more.events && Consume(buf).rest == more.rest
  {
    hide Parse, JunkSkip;
    if Parse(buf).used > 0 && Parse(buf).reply.Junk? {
      assert [] + Consume(buf[StepOver(buf)..]).events == Consume(buf[StepOver(buf)..]).events;
    }
  }

  lemma DrainEnds(buf: seq<byte>, done: seq<Reply>)
    requires Drained(buf, |buf|, done)
    ensures buf[|buf|..] == Consume(buf).rest && done == Consume(buf).events
  {
  }

  lemma HandledNothing(chs: seq<Chan>, slot: Slots.Slot)
    requires SaneAll(chs)
    ensures HandleAll(chs, slot, []) == (chs, slot)
  {
  }

  lemma {:induction false} HandledMore(chs: seq<Chan>, slot: Slots.Slot, events: seq<Reply>, r: Reply)
    requires SaneAll(chs)
    ensures HandleAll(chs, slot, events + [r])
         == HandleAll(HandleAll(chs, slot, events).0, HandleAll(chs, slot, events).1, [r])
    decreases |events|
  {
    hide Dispatch, Slots.Stash;
    if events == [] {
      assert [] + [r] == [r];
    } else {
      assert (events + [r])[1..] == events[1..] + [r];
      if events[0].Frame? {
        HandledMore(Dispatch(chs, events[0]), slot, events[1..], r);
      } else {
        HandledMore(chs, Slots.Stash(slot, events[0]), events[1..], r);
      }
    }
  }

  lemma {:induction false} HandledAppend(chs: seq<Chan>, slot: Slots.Slot, a: seq<Reply>, b: seq<Reply>)
    requires SaneAll(chs)
    ensures HandleAll(chs, slot, a + b) == HandleAll(HandleAll(chs, slot, a).0, HandleAll(chs, slot, a).1, b)
    decreases |b|
  {
    hide HandleAll;
    if b == [] {
      assert a + b == a;
      HandledNothing(HandleAll(chs, slot, a).0, HandleAll(chs, slot, a).1);
    } else {
      var n := |b| - 1;
      HandledAppend(chs, slot, a, b[..n]);
      HandledMore(chs, slot, a + b[..n], b[n]);
      assert a + b == a + b[..n] + [b[n]];
      HandledMore(HandleAll(chs, slot, a).0, HandleAll(chs, slot, a).1, b[..n], b[n]);
      assert b == b[..n] + [b[n]];
    }
  }

  lemma FeedsOneMore(chunks: seq<seq<byte>>, chunk: seq<byte>)
    ensures var before := FeedAll(chunks);
            var r := Feed(Reader(before.accum, []), chunk);
            FeedAll(chunks + [chunk]) == Reader(r.accum, before.emitted + r.emitted)
  {
    hide Feed;
    assert (chunks + [chunk])[..|chunks|] == chunks;
    FeedEmits(FeedAll(chunks), chunk);
  }

  lemma FeedEmits(r: Reader, chunk: seq<byte>)
    requires |r.accum| <= ACCUM_CAP
    ensures var fed := Feed(Reader(r.accum, []), chunk);
            Feed(r, chunk) == Reader(fed.accum, r.emitted + fed.emitted)
  {
    hide Consume;
  }

  /** `done` was read in the first `i` steps of the script, and the rest is what the others bring. */
  ghost predicate Progress(script: seq<ReadOutcome>, i: nat, failures: nat, done: seq<seq<byte>>)
  {
    && i <= |script|
    && DataBeforeLoss(script, 0) == done + DataBeforeLoss(script[i..], failures)
    && LosesDevice(script, 0) == LosesDevice(script[i..], failures)
  }

  lemma NothingRead(script: seq<ReadOutcome>)
    ensures Progress(script, 0, 0, []) && FeedAll([]) == Reader([], [])
  {
    assert script[0..] == script;
  }

  lemma ReadOne(script: seq<ReadOutcome>, i: nat, failures: nat, done: seq<seq<byte>>)
    requires Progress(script, i, failures, done) && i < |script|
    ensures var st := script[i];
            if GivesUp(st, failures) then DataBeforeLoss(script, 0) == done && LosesDevice(script, 0)
            else Progress(script, i + 1, FailuresAfter(st, failures), done + Piece(st))
  {
    hide Piece, GivesUp, FailuresAfter, DataBeforeLoss, LosesDevice;
    var st := script[i];
    var more := DataBeforeLoss(script[i + 1..], FailuresAfter(st, failures));
    LossUnfolds(script[i..], failures);
    assert script[i..][0] == st && script[i..][1..] == script[i + 1..];
    assert done + [] == done;
    assert done + (Piece(st) + more) == done + Piece(st) + more;
  }

  lemma LossUnfolds(script: seq<ReadOutcome>, failures: nat)
    requires script != []
    ensures var st, more := script[0], script[1..];
            if GivesUp(st, failures) then DataBeforeLoss(script, failures) == [] && LosesDevice(script, failures)
            else
              && DataBeforeLoss(script, failures) == Piece(st) + DataBeforeLoss(more, FailuresAfter(st, failures))
              && LosesDevice(script, failures) == LosesDevice(more, FailuresAfter(st, failures))
  {
    hide Piece, GivesUp, FailuresAfter;
  }

  // ---- when the device is given up ----

  /** How many of these reads failed. */
  function FailedReads(rs: seq<ReadOutcome>): nat
  {
    if rs == [] then 0 else FailedReads(rs[..|rs| - 1]) + if rs[|rs| - 1].Failed? then 1 else 0
  }

  /** The bytes of those that brought some. */
  function BytesOf(rs: seq<ReadOutcome>): seq<seq<byte>>
  {
    if rs == [] then [] else BytesOf(rs[..|rs| - 1]) + Piece(rs[|rs| - 1])
  }

  /** A read that neither timed out nor brought anything. */
  predicate BringsNothing(st: ReadOutcome) { st.Failed? || st == Data([]) }

  /** Fifty failed reads from the m-th to the n-th, and between them none that timed out or brought anything. */
  ghost predicate FiftyFailed(script: seq<ReadOutcome>, m: nat, n: nat)
    requires n < |script|
  {
    m <= n && (forall k | m <= k <= n :: BringsNothing(script[k])) && FailedReads(script[m..n + 1]) >= 50
  }

  ghost predicate GivenUpAt(script: seq<ReadOutcome>, n: nat)
  {
    n < |script| && (script[n].Gone? || (script[n].Failed? && exists m: nat :: FiftyFailed(script, m, n)))
  }

  /** The failures in a row at the end, as the loop counts them. */
  function Streak(rs: seq<ReadOutcome>): nat
  {
    if rs == [] then 0 else FailuresAfter(rs[|rs| - 1], Streak(rs[..|rs| - 1]))
  }

  lemma {:induction false} StreakCounts(rs: seq<ReadOutcome>, m: nat)
    requires m <= |rs| && forall k | m <= k < |rs| :: BringsNothing(rs[k])
    ensures FailedReads(rs[m..]) <= Streak(rs)
  {
    if m < |rs| {
      var n := |rs| - 1;
      StreakCounts(rs[..n], m);
      assert rs[m..][..n - m] == rs[..n][m..];
    }
  }

  lemma {:induction false} StreakIsThere(rs: seq<ReadOutcome>) returns (m: nat)
    ensures m <= |rs| && (forall k | m <= k < |rs| :: BringsNothing(rs[k])) && FailedReads(rs[m..]) == Streak(rs)
  {
    m := |rs|;
    assert rs[m..] == [];
    if rs != [] && BringsNothing(rs[|rs| - 1]) {
      var n := |rs| - 1;
      m := StreakIsThere(rs[..n]);
      assert rs[m..][..n - m] == rs[..n][m..];
    }
  }

  lemma GivesUpThere(script: seq<ReadOutcome>, n: nat)
    requires n < |script|
    ensures GivenUpAt(script, n) <==> GivesUp(script[n], Streak(script[..n]))
  {
    hide FailedReads, Streak;
    var upTo := script[..n + 1];
    assert upTo[..n] == script[..n] && upTo[n] == script[n];
    StreakGrows(upTo);
    var m := StreakIsThere(upTo);
    assert upTo[m..] == script[m..n + 1];
    assert forall k | m <= k <= n :: upTo[k] == script[k];
    if p: nat :| FiftyFailed(script, p, n) {
      StreakCounts(upTo, p);
      assert upTo[p..] == script[p..n + 1];
    }
    if script[n].Failed? && Streak(upTo) >= 50 {
      assert m == n + 1 ==> upTo[m..] == [];
      NoneFailed();
      assert FiftyFailed(script, m, n);
    }
  }

  lemma NoneFailed()
    ensures FailedReads([]) == 0
  {
  }

  lemma StreakGrows(rs: seq<ReadOutcome>)
    requires rs != []
    ensures Streak(rs) == FailuresAfter(rs[|rs| - 1], Streak(rs[..|rs| - 1]))
  {
  }

  lemma {:induction false} ReadUpTo(script: seq<ReadOutcome>, n: nat)
    requires n <= |script| && forall k | 0 <= k < n :: !GivenUpAt(script, k)
    ensures Progress(script, n, Streak(script[..n]), BytesOf(script[..n]))
  {
    hide Progress, GivenUpAt, FailuresAfter, Piece;
    if n == 0 {
      NothingRead(script);
    } else {
      ReadUpTo(script, n - 1);
      GivesUpThere(script, n - 1);
      ReadOne(script, n - 1, Streak(script[..n - 1]), BytesOf(script[..n - 1]));
      assert script[..n][..n - 1] == script[..n - 1];
    }
  }

  /** The device is given up exactly when a read finds it gone or fifty reads fail with neither a timeout nor any
      bytes between them, and then everything read before the first such moment has been handled. */
  lemma ReaderGivesUpIff(script: seq<ReadOutcome>)
    ensures LosesDevice(script, 0) <==> exists n: nat :: GivenUpAt(script, n)
    ensures forall n: nat | n < |script| && GivenUpAt(script, n) && (forall k | 0 <= k < n :: !GivenUpAt(script, k)) ::
              DataBeforeLoss(script, 0) == BytesOf(script[..n])
    ensures !LosesDevice(script, 0) ==> DataBeforeLoss(script, 0) == BytesOf(script)
  {
    hide LosesDevice, DataBeforeLoss, GivenUpAt, Streak, BytesOf, Progress;
    forall n: nat | n < |script| && GivenUpAt(script, n) && (forall k | 0 <= k < n :: !GivenUpAt(script, k))
      ensures DataBeforeLoss(script, 0) == BytesOf(script[..n]) && LosesDevice(script, 0)
    {
      FirstLoss(script, n);
    }
    if n: nat :| GivenUpAt(script, n) {
      var first := LeastLoss(script, n);
      FirstLoss(script, first);
    } else {
      ReadUpTo(script, |script|);
      assert script[..|script|] == script;
      AllRead(script, Streak(script), BytesOf(script));
    }
  }

  lemma FirstLoss(script: seq<ReadOutcome>, n: nat)
    requires GivenUpAt(script, n) && forall k | 0 <= k < n :: !GivenUpAt(script, k)
    ensures n < |script| && DataBeforeLoss(script, 0) == BytesOf(script[..n]) && LosesDevice(script, 0)
  {
    hide LosesDevice, DataBeforeLoss, Streak, BytesOf, Progress, FiftyFailed;
    ReadUpTo(script, n);
    GivesUpThere(script, n);
    ReadOne(script, n, Streak(script[..n]), BytesOf(script[..n]));
  }

  lemma LeastLoss(script: seq<ReadOutcome>, n: nat) returns (first: nat)
    requires GivenUpAt(script, n)
    ensures GivenUpAt(script, first) && forall k | 0 <= k < first :: !GivenUpAt(script, k)
  {
    hide GivenUpAt;
    first := n;
    if k :| 0 <= k < n && GivenUpAt(script, k) { first := LeastLoss(script, k); }
  }

  lemma AllRead(script: seq<ReadOutcome>, failures: nat, done: seq<seq<byte>>)
    requires Progress(script, |script|, failures, done)
    ensures DataBeforeLoss(script, 0) == done && !LosesDevice(script, 0)
  {
    assert script[|script|..] == [];
    assert done + [] == done;
  }
}
