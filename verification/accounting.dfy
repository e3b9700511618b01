/** PassThruReadMsgs over the session in place, with reads arriving, the cable vanishing and the device being
    closed while it waits: every message that arrived is accounted for. */
module Accounting {
  import opened Bytes
  import opened Channels
  import Device
  import Proto
  import Queue
  import Slots
  import Stream

  datatype Code = STATUS_NOERROR | ERR_INVALID_CHANNEL_ID | ERR_DEVICE_NOT_CONNECTED | ERR_TIMEOUT
                | ERR_BUFFER_EMPTY | ERR_BUFFER_OVERFLOW | ERR_INVALID_DEVICE_ID

  /** An arriving message is dropped exactly when its header and data do not fit. */
  lemma DroppedIffNoRoom(c: Chan, m: Msg)
    requires |m.data| <= Proto.MSG_MAX
    ensures var after := Push(c, m);
            if QueueBytes(c.queue) + QHDR + |m.data| <= c.capacity
            then after == c.(queue := c.queue + [m])
            else after == c.(dropped := c.dropped + 1)
  {
    assert Clip(m.data, Proto.MSG_MAX) == m.data;
  }

  /** Those of them that fit. */
  function Fitting(c: Chan, arrivals: seq<Msg>): seq<Msg>
  {
    PushAll(c, arrivals).queue[|c.queue|..]
  }

  /** Whole messages, as the driver queues them. */
  ghost predicate AllWhole(msgs: seq<Msg>) { forall i | 0 <= i < |msgs| :: |msgs[i].data| <= Proto.MSG_MAX }

  lemma {:induction false} FittingIsSubsequence(c: Chan, arrivals: seq<Msg>)
    requires AllWhole(arrivals)
    ensures IsSubsequence(Fitting(c, arrivals), arrivals)
    ensures |arrivals| == |Fitting(c, arrivals)| + (PushAll(c, arrivals).dropped - c.dropped)
  {
    hide Push, IsSubsequence;
    if arrivals == [] {
      NothingIsSubsequence();
    } else {
      var before, m := arrivals[..|arrivals| - 1], arrivals[|arrivals| - 1];
      FittingIsSubsequence(c, before);
      var was := PushAll(c, before);
      DroppedIffNoRoom(was, m);
      var kept := Push(was, m).queue[|was.queue|..];
      assert Fitting(c, arrivals) == Fitting(c, before) + kept;
      OneIsSubsequence(kept, m);
      SubsequencesAppend(Fitting(c, before), before, kept, [m]);
      assert before + [m] == arrivals;
    }
  }

  lemma OneIsSubsequence(kept: seq<Msg>, m: Msg)
    requires kept == [] || kept == [m]
    ensures IsSubsequence(kept, [m])
  {
    assert [m][1..] == [];
    assert IsSubsequence(kept, [m]) <==> (kept != [] && IsSubsequence(kept[1..], [])) || IsSubsequence(kept, []);
  }

  lemma NothingIsSubsequence()
    ensures IsSubsequence<Msg>([], [])
  {
  }

  /** OP_RXQ_BYTES. */
  const RXQ_BYTES: nat := 1024 * 1024

  /** Messages of at most `size` bytes, left unread, are all kept as long as they fit one by one. */
  lemma {:induction false} UnreadMessagesFit(c: Chan, msgs: seq<Msg>, size: nat)
    requires c.queue == [] && size <= Proto.MSG_MAX && forall i | 0 <= i < |msgs| :: |msgs[i].data| <= size
    requires |msgs| * (QHDR + size) <= c.capacity
    ensures PushAll(c, msgs) == c.(queue := msgs) && QueueBytes(msgs) <= |msgs| * (QHDR + size)
  {
    hide Push;
    if msgs != [] {
      var n, each := |msgs| - 1, QHDR + size;
      assert |msgs| * each == n * each + each;
      UnreadMessagesFit(c, msgs[..n], size);
      DroppedIffNoRoom(c.(queue := msgs[..n]), msgs[n]);
      QueueBytesAppends(msgs[..n], msgs[n]);
      assert msgs[..n] + [msgs[n]] == msgs;
    } else {
      assert PushAll(c, msgs) == c.(queue := msgs);
    }
  }

  /** The driver's queue holds 29127 raw CAN frames, or 252 of the largest messages. */
  lemma DriverQueueHolds(c: Chan, msgs: seq<Msg>)
    requires c.queue == [] && c.capacity == RXQ_BYTES
    requires (|msgs| <= 29127 && forall i | 0 <= i < |msgs| :: |msgs[i].data| <= 12) || (|msgs| <= 252 && AllWhole(msgs))
    ensures PushAll(c, msgs) == c.(queue := msgs)
  {
    if |msgs| <= 252 && AllWhole(msgs) {
      UnreadMessagesFit(c, msgs, Proto.MSG_MAX);
    } else {
      UnreadMessagesFit(c, msgs, 12);
    }
  }

  // ---- what arrives on a channel of the session ----

  /** The messages a frame makes for channel `j`. */
  function Brings(chs: seq<Chan>, j: nat, r: Proto.Reply): seq<Msg>
    requires SaneAll(chs) && j < CHANNELS && r.Frame?
  {
    match RouteOf(chs, r)
    case Nowhere => []
    case Own(i) => if i == j then Made(chs[j], r) else []
    case Echo => if j == 6 then [EchoMsg(r)] else []
  }

  lemma DispatchBrings(chs: seq<Chan>, j: nat, r: Proto.Reply)
    requires SaneAll(chs) && j < CHANNELS && r.Frame?
    ensures SameRoom(Dispatch(chs, r)[j], PushAll(chs[j], Brings(chs, j, r)))
  {
    hide Absorb, AbsorbEcho, Made, EchoMsg, PushAll;
    NothingPushed(chs[j]);
    AbsorbMakes(chs[j], r);
  }

  lemma NothingPushed(c: Chan)
    ensures PushAll(c, []) == c
  {
  }

  /** The same for everything decoded from a read. */
  function BringsAll(chs: seq<Chan>, j: nat, events: seq<Proto.Reply>): seq<Msg>
    requires SaneAll(chs) && j < CHANNELS
    decreases |events|
  {
    if events == [] then []
    else if events[0].Frame? then Brings(chs, j, events[0]) + BringsAll(Dispatch(chs, events[0]), j, events[1..])
    else BringsAll(chs, j, events[1..])
  }

  lemma {:induction false} HandledBrings(chs: seq<Chan>, slot: Slots.Slot, j: nat, events: seq<Proto.Reply>)
    requires SaneAll(chs) && j < CHANNELS
    ensures SameRoom(Device.HandleAll(chs, slot, events).0[j], PushAll(chs[j], BringsAll(chs, j, events)))
    decreases |events|
  {
    hide Dispatch, Brings, PushAll, Slots.Stash;
    if events == [] {
      NothingPushed(chs[j]);
    } else if events[0].Frame? {
      var r, more := events[0], events[1..];
      var next := Dispatch(chs, r);
      DispatchBrings(chs, j, r);
      HandledBrings(next, slot, j, more);
      PushAllSame(next[j], PushAll(chs[j], Brings(chs, j, r)), BringsAll(next, j, more));
      PushAllAppends(chs[j], Brings(chs, j, r), BringsAll(next, j, more));
    } else {
      HandledBrings(chs, Slots.Stash(slot, events[0]), j, events[1..]);
    }
  }

  /** What arrives on channel `j` in the course of events. */
  ghost function ArrivesBy(w: Device.World, j: nat, e: Device.Event): seq<Msg>
    requires Device.Sane(w) && j < CHANNELS
  {
    if e.Read? then BringsAll(w.chs, j, Stream.Feed(Stream.Reader(w.acc, []), e.chunk).emitted) else []
  }

  ghost function Arrives(w: Device.World, j: nat, es: seq<Device.Event>): seq<Msg>
    requires Device.Sane(w) && j < CHANNELS
    decreases |es|
  {
    if es == [] then [] else ArrivesBy(w, j, es[0]) + Arrives(Device.After(w, es[0]), j, es[1..])
  }

  /** Events between flushes, with one receiver: nobody else pops, flushes, opens or closes channel `j` or
      takes its loss count. */
  predicate Quiet(j: nat, e: Device.Event)
  {
    match e
    case PopBy(i) => i != j
    case Flush(i) => i != j
    case OpenAs(i, _, _) => i != j
    case CloseOne(i) => i != j
    case DropsTaken(i) => i != j
    case _ => true
  }

  ghost predicate AllQuiet(j: nat, es: seq<Device.Event>) { forall i | 0 <= i < |es| :: Quiet(j, es[i]) }

  lemma EventArrives(w: Device.World, j: nat, e: Device.Event)
    requires Device.Sane(w) && j < CHANNELS && Quiet(j, e)
    ensures SameRoom(Device.After(w, e).chs[j], PushAll(w.chs[j], ArrivesBy(w, j, e)))
  {
    hide PushAll, Device.HandleAll, Stream.Feed;
    NothingPushed(w.chs[j]);
    if e.Read? { HandledBrings(w.chs, w.slot, j, Stream.Feed(Stream.Reader(w.acc, []), e.chunk).emitted); }
  }

  /** For the channel's queue and losses, quiet events are the arrival of those messages. */
  lemma {:induction false} EventsArrive(w: Device.World, j: nat, es: seq<Device.Event>)
    requires Device.Sane(w) && j < CHANNELS && AllQuiet(j, es)
    ensures SameRoom(Device.AfterAll(w, es).chs[j], PushAll(w.chs[j], Arrives(w, j, es)))
    decreases |es|
  {
    hide PushAll, Device.After, ArrivesBy;
    if es == [] {
      NothingPushed(w.chs[j]);
    } else {
      var next := Device.After(w, es[0]);
      EventArrives(w, j, es[0]);
      assert AllQuiet(j, es[1..]);
      EventsArrive(next, j, es[1..]);
      PushAllSame(next.chs[j], PushAll(w.chs[j], ArrivesBy(w, j, es[0])), Arrives(next, j, es[1..]));
      PushAllAppends(w.chs[j], ArrivesBy(w, j, es[0]), Arrives(next, j, es[1..]));
    }
  }

  // ---- reading ----

  /** The codes of a read that ended with its loop. */
  predicate RanOut(rc: Code, want: nat)
  {
    rc in {ERR_BUFFER_OVERFLOW, ERR_BUFFER_EMPTY, ERR_TIMEOUT} || (rc.STATUS_NOERROR? && want > 0)
  }

  /** One pop of a read: the milliseconds since the call began, and what happens each time it sleeps. */
  datatype Wait = Wait(elapsed: nat, sleeps: seq<seq<Device.Event>>)

  /** The session after pops that were each preceded by some events. */
  ghost function WorldAfter(w: Device.World, j: nat, history: seq<seq<Device.Event>>): (w': Device.World)
    requires Device.Sane(w)
    ensures Device.Sane(w')
  {
    if history == [] then w
    else Device.Popped(Device.AfterAll(WorldAfter(w, j, history[..|history| - 1]), history[|history| - 1]), j)
  }

  /** What arrived before each of them. */
  ghost function Came(w: Device.World, j: nat, history: seq<seq<Device.Event>>): (came: seq<seq<Msg>>)
    requires Device.Sane(w) && j < CHANNELS
    ensures |came| == |history|
  {
    if history == [] then []
    else
      var before := history[..|history| - 1];
      Came(w, j, before) + [Arrives(WorldAfter(w, j, before), j, history[|history| - 1])]
  }

  /** What of it fitted when it came, in order. */
  ghost function Survived(w: Device.World, j: nat, history: seq<seq<Device.Event>>): seq<Msg>
    requires Device.Sane(w) && j < CHANNELS
  {
    if history == [] then []
    else
      var before, last := history[..|history| - 1], history[|history| - 1];
      var mid := WorldAfter(w, j, before);
      Survived(w, j, before) + Fitting(mid.chs[j], Arrives(mid, j, last))
  }

  lemma MadeIsWhole(c: Chan, r: Proto.Reply)
    requires r.Frame? && c.Sane()
    ensures AllWhole(Made(c, r)) && AllWhole([EchoMsg(r)])
  {
    hide HasBit, Extend;
  }

  lemma {:induction false} BroughtIsWhole(chs: seq<Chan>, j: nat, events: seq<Proto.Reply>)
    requires SaneAll(chs) && j < CHANNELS
    ensures AllWhole(BringsAll(chs, j, events))
    decreases |events|
  {
    hide Dispatch, Made, EchoMsg;
    if events != [] {
      if events[0].Frame? {
        MadeIsWhole(chs[j], events[0]);
        BroughtIsWhole(Dispatch(chs, events[0]), j, events[1..]);
      } else {
        BroughtIsWhole(chs, j, events[1..]);
      }
    }
  }

  lemma {:induction false} ArrivalsAreWhole(w: Device.World, j: nat, es: seq<Device.Event>)
    requires Device.Sane(w) && j < CHANNELS
    ensures AllWhole(Arrives(w, j, es))
    decreases |es|
  {
    hide Device.After, BringsAll, Stream.Feed;
    if es != [] {
      if es[0].Read? { BroughtIsWhole(w.chs, j, Stream.Feed(Stream.Reader(w.acc, []), es[0].chunk).emitted); }
      ArrivalsAreWhole(Device.After(w, es[0]), j, es[1..]);
    }
  }

  /** The survivors are arrivals, in order, nothing invented or repeated. */
  lemma {:induction false} SurvivorsArrived(w: Device.World, j: nat, history: seq<seq<Device.Event>>)
    requires Device.Sane(w) && j < CHANNELS
    ensures IsSubsequence(Survived(w, j, history), Concat(Came(w, j, history)))
  {
    hide PushAll, WorldAfter, AllWhole, IsSubsequence, Arrives, Fitting;
    if history == [] {
      NothingIsSubsequence();
    } else {
      var before, last := history[..|history| - 1], history[|history| - 1];
      var mid := WorldAfter(w, j, before);
      var came := Arrives(mid, j, last);
      SurvivorsArrived(w, j, before);
      ArrivalsAreWhole(mid, j, last);
      FittingIsSubsequence(mid.chs[j], came);
      SubsequencesAppend(Survived(w, j, before), Concat(Came(w, j, before)), Fitting(mid.chs[j], came), came);
      ConcatAppend(Came(w, j, before), [came]);
      assert Concat([came]) == came;
    }
  }

  lemma NothingCame(w: Device.World, j: nat)
    requires Device.Sane(w) && j < CHANNELS
    ensures WorldAfter(w, j, []) == w && Came(w, j, []) == [] && Survived(w, j, []) == []
  {
  }

  lemma OnePopMore(w: Device.World, j: nat, history: seq<seq<Device.Event>>, es: seq<Device.Event>)
    requires Device.Sane(w) && j < CHANNELS
    ensures var mid := WorldAfter(w, j, history);
            && WorldAfter(w, j, history + [es]) == Device.Popped(Device.AfterAll(mid, es), j)
            && |Concat(Came(w, j, history + [es]))| == |Concat(Came(w, j, history))| + |Arrives(mid, j, es)|
            && Survived(w, j, history + [es]) == Survived(w, j, history) + Fitting(mid.chs[j], Arrives(mid, j, es))
  {
    hide Device.Popped, Device.AfterAll, Fitting, Arrives;
    assert (history + [es])[..|history|] == history;
    var came := Arrives(WorldAfter(w, j, history), j, es);
    ConcatAppend(Came(w, j, history), [came]);
    assert Concat([came]) == came;
  }

  /** A pop slept through the first so many of its sleeps. */
  ghost predicate Slept(es: seq<Device.Event>, sleeps: seq<seq<Device.Event>>)
  {
    exists u | 0 <= u <= |sleeps| :: es == Concat(sleeps[..u])
  }

  lemma SleptIsQuiet(j: nat, sleeps: seq<seq<Device.Event>>, u: nat)
    requires u <= |sleeps| && AllQuiet(j, Concat(sleeps))
    ensures AllQuiet(j, Concat(sleeps[..u])) && Slept(Concat(sleeps[..u]), sleeps)
  {
    assert sleeps == sleeps[..u] + sleeps[u..];
    ConcatAppend(sleeps[..u], sleeps[u..]);
    forall i | 0 <= i < |Concat(sleeps[..u])| ensures Quiet(j, Concat(sleeps[..u])[i]) {
      assert Concat(sleeps)[i] == Concat(sleeps[..u])[i];
    }
  }

  /** The messages of a caller's array, each with its own buffer, none of them the session's. */
  ghost predicate Buffers(outs: seq<Queue.Message>, session: Device.Session)
    reads session, session.ch
  {
    && (forall i | 0 <= i < |outs| :: outs[i].data.Length == Proto.MSG_MAX && outs[i].data != session.accum)
    && (forall i, k | 0 <= i < |outs| && 0 <= k < |session.ch| :: outs[i].data != session.ch[k].rq)
    && forall i, k | 0 <= i < k < |outs| :: outs[i] != outs[k] && outs[i].data != outs[k].data
  }

  ghost function Contents(outs: seq<Queue.Message>): set<object> { set m | m in outs :: m.data as object }

  /** The receive side of one channel of a session. The ghost fields are its history since the last flush:
      the messages that fitted, those handed out, how many arrived, and how many losses have been reported. */
  class Receiver {
    const session: Device.Session
    const channel: nat
    ghost var accepted: seq<Msg>
    ghost var delivered: seq<Msg>
    ghost var arrived: nat
    ghost var reported: nat

    constructor (session: Device.Session, channel: nat)
      requires session.Valid() && channel < CHANNELS
      requires session.ch[channel].queue == [] && session.ch[channel].dropped == 0
      ensures Accounted() && this.session == session && this.channel == channel
    {
      this.session, this.channel := session, channel;
      accepted, delivered, arrived, reported := [], [], 0, 0;
    }

    ghost function Here(): Chan
      requires session.Valid() && channel < CHANNELS
      reads session, session.accum, session.slot, session.ch, session.Rings()
    {
      session.World().chs[channel]
    }

    /** What was handed out and what is still queued is what fitted, in order; and every arrival fitted,
        was reported lost, or will be. */
    ghost predicate Accounted()
      reads this, session, session.accum, session.slot, session.ch, session.Rings()
    {
      && session.Valid() && channel < CHANNELS
      && delivered + Here().queue == accepted && arrived == |accepted| + reported + Here().dropped
    }

    /** One call of op_device_pop, wait and all. */
    method WaitAndPop(out: Queue.Message, remaining: nat, w: Wait)
      returns (st: Device.Status, ghost given: seq<Msg>, ghost es: seq<Device.Event>)
      requires Accounted() && AllQuiet(channel, Concat(w.sleeps)) && Buffers([out], session)
      modifies this, session`open, session`lost, session`accumLen, session.accum, session.slot, session.ch, session.Rings()
      modifies out, out.data
      ensures Accounted() && session.RingsKept() && Slept(es, w.sleeps)
      ensures session.World() == Device.Popped(Device.AfterAll(old(session.World()), es), channel)
      ensures var came := Arrives(old(session.World()), channel, es);
              && arrived == old(arrived) + |came| && accepted == old(accepted) + Fitting(old(Here()), came)
              && given + Here().queue == old(Here().queue) + Fitting(old(Here()), came)
              && Here().open == old(Here().open)
      ensures delivered == old(delivered) + given && reported == old(reported)
      ensures st == Device.OK ==> |given| == 1 && out.Holds(given[0])
      ensures st != Device.OK ==> given == []
      ensures st == Device.NO_DEVICE <==> !session.open || session.lost
      ensures st == Device.TIMEOUT ==> Here().queue == [] && (remaining == 0 || es == Concat(w.sleeps))
      ensures st in {Device.OK, Device.NO_DEVICE, Device.TIMEOUT} && (session.open ==> old(session.open))
    {
      hide Device.AfterAll, Device.Sane, Fitting, Arrives, AllQuiet, Slept, PushAll, Concat, Device.Popped, Device.Verdict,
        Device.Session.Valid, Device.Session.World, Queue.Message.Holds;
      ghost var was := session.World();
      session.FlagsShow();
      session.TenChannels();
      assert [out][0] == out;
      var used;
      st, used := session.Pop(channel, out, remaining, w.sleeps);
      es := Concat(w.sleeps[..used]);
      SleptIsQuiet(channel, w.sleeps, used);
      PopAccounts(was, channel, es, accepted, delivered);
      ghost var mid, came := Device.AfterAll(was, es), Arrives(was, channel, es);
      given := if st == Device.OK then [mid.chs[channel].queue[0]] else [];
      accepted := accepted + Fitting(was.chs[channel], came);
      arrived := arrived + |came|;
      delivered := delivered + given;
      session.FlagsShow();
      assert w.sleeps[..|w.sleeps|] == w.sleeps;
    }

    /** The history since the session was `was`: the pops with the events before each, and the messages they
        handed out. */
    ghost predicate Since(was: Device.World, arrivedThen: nat, acceptedThen: seq<Msg>,
                          history: seq<seq<Device.Event>>, msgs: seq<Msg>)
      requires session.Valid() && channel < CHANNELS && Device.Sane(was)
      reads this, session, session.accum, session.slot, session.ch, session.Rings()
    {
      && session.World() == WorldAfter(was, channel, history)
      && arrived == arrivedThen + |Concat(Came(was, channel, history))|
      && accepted == acceptedThen + Survived(was, channel, history)
      && msgs + Here().queue == was.chs[channel].queue + Survived(was, channel, history)
    }

    lemma NothingSince()
      requires session.Valid() && channel < CHANNELS
      ensures Since(session.World(), arrived, accepted, [], [])
    {
      NothingCame(session.World(), channel);
    }

    /** The next pop of a read, on top of that history. */
    method NextPop(out: Queue.Message, remaining: nat, w: Wait, ghost was: Device.World, ghost arrivedThen: nat,
                   ghost acceptedThen: seq<Msg>, ghost history: seq<seq<Device.Event>>, ghost msgs: seq<Msg>)
      returns (st: Device.Status, ghost given: seq<Msg>, ghost es: seq<Device.Event>)
      requires Accounted() && Device.Sane(was) && Since(was, arrivedThen, acceptedThen, history, msgs)
      requires AllQuiet(channel, Concat(w.sleeps)) && Buffers([out], session)
      modifies this, session`open, session`lost, session`accumLen, session.accum, session.slot, session.ch, session.Rings()
      modifies out, out.data
      ensures Accounted() && session.RingsKept() && Slept(es, w.sleeps)
      ensures Since(was, arrivedThen, acceptedThen, history + [es], msgs + given)
      ensures delivered == old(delivered) + given && reported == old(reported) && Here().open == old(Here().open)
      ensures st == Device.OK ==> |given| == 1 && out.Holds(given[0])
      ensures st != Device.OK ==> given == []
      ensures st == Device.NO_DEVICE <==> !session.open || session.lost
      ensures st == Device.TIMEOUT ==> Here().queue == [] && (remaining == 0 || es == Concat(w.sleeps))
      ensures st in {Device.OK, Device.NO_DEVICE, Device.TIMEOUT} && (session.open ==> old(session.open))
    {
      hide Device.AfterAll, Device.Popped, Fitting, Arrives, AllQuiet, Slept, Concat, WorldAfter, Came, Survived,
        Device.Session.Valid, Device.Session.World, Queue.Message.Holds;
      ghost var before, now := Here(), session.World();
      ghost var survived := Survived(was, channel, history);
      st, given, es := WaitAndPop(out, remaining, w);
      OnePopMore(was, channel, history, es);
      ghost var fit := Fitting(before, Arrives(now, channel, es));
      Regroup(msgs, given, Here().queue, before.queue, fit, was.chs[channel].queue, survived);
      assert acceptedThen + (survived + fit) == acceptedThen + survived + fit;
    }

    /** A read under way: its account, its history, and the caller's messages filled so far. */
    ghost predicate Reading(was: Device.World, arrivedThen: nat, acceptedThen: seq<Msg>, deliveredThen: seq<Msg>,
                            outs: seq<Queue.Message>, waits: seq<Wait>, history: seq<seq<Device.Event>>, msgs: seq<Msg>)
      reads this, session, session.accum, session.slot, session.ch, session.Rings(), outs, Contents(outs)
    {
      && Accounted() && Device.Sane(was) && Since(was, arrivedThen, acceptedThen, history, msgs)
      && delivered == deliveredThen + msgs && AllSlept(history, waits)
      && |msgs| <= |outs| && Holding(outs, msgs) && Buffers(outs, session)
    }

    lemma ReadingIs(was: Device.World, arrivedThen: nat, acceptedThen: seq<Msg>, deliveredThen: seq<Msg>,
                    outs: seq<Queue.Message>, waits: seq<Wait>, history: seq<seq<Device.Event>>, msgs: seq<Msg>)
      requires Reading(was, arrivedThen, acceptedThen, deliveredThen, outs, waits, history, msgs)
      ensures session.Valid() && channel < CHANNELS && |session.World().chs| == CHANNELS && |msgs| <= |outs|
    {
    }

    /** One pop more, into the next of the caller's messages. */
    method FillNext(outs: seq<Queue.Message>, got: nat, remaining: nat, w: Wait, waits: seq<Wait>,
                    ghost was: Device.World, ghost arrivedThen: nat, ghost acceptedThen: seq<Msg>, ghost deliveredThen: seq<Msg>,
                    ghost history: seq<seq<Device.Event>>, ghost msgs: seq<Msg>)
      returns (st: Device.Status, ghost history': seq<seq<Device.Event>>, ghost msgs': seq<Msg>)
      requires Reading(was, arrivedThen, acceptedThen, deliveredThen, outs, waits, history, msgs)
      requires got == |msgs| < |outs| && w.sleeps == SleepsOf(waits, |history|) && AllQuiet(channel, Concat(w.sleeps))
      modifies this, session`open, session`lost, session`accumLen, session.accum, session.slot, session.ch, session.Rings()
      modifies outs[got], outs[got].data
      ensures Reading(was, arrivedThen, acceptedThen, deliveredThen, outs, waits, history', msgs') && session.RingsKept()
      ensures |history'| == |history| + 1 && |msgs'| == |msgs| + if st == Device.OK then 1 else 0
      ensures reported == old(reported) && Here().open == old(Here().open)
      ensures st == Device.NO_DEVICE <==> !session.open || session.lost
      ensures st == Device.TIMEOUT ==> Here().queue == []
      ensures st in {Device.OK, Device.NO_DEVICE, Device.TIMEOUT} && (session.open ==> old(session.open))
    {
      hide Since, Slept, AllQuiet, Concat, Device.Session.Valid, Device.Session.World, Queue.Message.Holds;
      AccountedIsValid();
      ghost var given, es;
      st, given, es := NextPop(outs[got], remaining, w, was, arrivedThen, acceptedThen, history, msgs);
      BuffersStay(outs);
      history', msgs' := history + [es], msgs + given;
      assert deliveredThen + msgs + given == deliveredThen + (msgs + given);
    }

    /** The loop of PassThruReadMsgs: pops into the caller's messages until they are full, nothing can come or
        the time is up. */
    method ReadLoop(outs: seq<Queue.Message>, timeout: u32, waits: seq<Wait>)
      returns (gone: bool, got: nat, ghost msgs: seq<Msg>, ghost history: seq<seq<Device.Event>>)
      requires Accounted() && session.open && |outs| > 0 && Buffers(outs, session)
      requires forall k | 0 <= k < |waits| :: AllQuiet(channel, Concat(waits[k].sleeps))
      modifies this, session`open, session`lost, session`accumLen, session.accum, session.slot, session.ch, session.Rings()
      modifies outs, Contents(outs)
      ensures Reading(old(session.World()), old(arrived), old(accepted), old(delivered), outs, waits, history, msgs)
      ensures session.RingsKept() && history != [] && got == |msgs|
      ensures reported == old(reported) && Here().open == old(Here().open)
      ensures gone <==> !session.open || session.lost
      ensures !gone && got < |outs| ==> Here().queue == [] && TimeIsUp(history, waits, timeout)
    {
      hide Reading, Accounted, AllQuiet, Concat, Device.Session.Valid, Device.Session.World, Buffers;
      gone, got, msgs, history := false, 0, [], [];
      var k := 0;
      ReadingBegins(outs, waits);
      ghost var was := session.World();
      while true
        invariant k == |history| && session.RingsKept() && session.open && got == |msgs| < |outs|
        invariant Reading(was, old(arrived), old(accepted), old(delivered), outs, waits, history, msgs)
        invariant session.Valid() && channel < CHANNELS && |session.World().chs| == CHANNELS
        invariant reported == old(reported) && Here().open == old(Here().open)
        decreases if k < |waits| then |waits| - k else 0, |outs| - got
      {
        var w := if k < |waits| then waits[k] else Wait(timeout, []);
        var remaining := if w.elapsed < timeout then timeout - w.elapsed else 0;
        NothingIsQuiet(channel);
        var st;
        st, history, msgs := FillNext(outs, got, remaining, w, waits, was, old(arrived), old(accepted), old(delivered), history, msgs);
        ReadingIs(was, old(arrived), old(accepted), old(delivered), outs, waits, history, msgs);
        k := k + 1;
        if st == Device.OK {
          got := got + 1;
          if got >= |outs| { return; }
          continue;
        }
        if st != Device.TIMEOUT {
          gone := true;
          return;
        }
        if remaining == 0 { return; }
      }
    }

    lemma ReadingBegins(outs: seq<Queue.Message>, waits: seq<Wait>)
      requires Accounted() && Buffers(outs, session)
      ensures Reading(session.World(), arrived, accepted, delivered, outs, waits, [], [])
      ensures session.Valid() && channel < CHANNELS && |session.World().chs| == CHANNELS
    {
      NothingSince();
    }

    /** op_device_take_dropped. */
    method TakeDropped() returns (n: nat)
      requires Accounted()
      modifies this`reported, session.ch[channel]
      ensures Accounted() && session.RingsKept()
      ensures session.World() == Device.After(old(session.World()), Device.DropsTaken(channel))
      ensures n == (if session.open then old(Here().dropped) else 0) && reported == old(reported) + n
      ensures Here().queue == old(Here().queue) && Here().dropped == if session.open then 0 else old(Here().dropped)
    {
      hide Device.Session.Valid, Device.Session.World, Device.After;
      session.FlagsShow();
      session.ChannelShows(channel);
      DropsGo(session.World(), channel);
      n := session.TakeDropped(channel);
      reported := reported + n;
    }

    /** PassThruReadMsgs: the room in the caller's array is the count that goes in, and `num` the one that
        comes out. Past the end of `waits` the time is up and nothing more happens. `msgs` are the messages
        handed out, and `history` the events before each pop. */
    method ReadMsgs(outs: seq<Queue.Message>, timeout: u32, waits: seq<Wait>)
      returns (rc: Code, num: nat, ghost msgs: seq<Msg>, ghost history: seq<seq<Device.Event>>)
      requires Accounted() && Buffers(outs, session)
      requires forall k | 0 <= k < |waits| :: AllQuiet(channel, Concat(waits[k].sleeps))
      modifies this, session`open, session`lost, session`accumLen, session.accum, session.slot, session.ch, session.Rings()
      modifies outs, Contents(outs)
      ensures Accounted() && session.RingsKept() && AllSlept(history, waits)
      // what came in meanwhile, and that the messages handed out are the oldest of what was there and what came
      ensures var was := old(session.World());
              && arrived == old(arrived) + |Concat(Came(was, channel, history))|
              && accepted == old(accepted) + Survived(was, channel, history)
              && msgs + Here().queue == old(Here().queue) + Survived(was, channel, history)
              && session.World() == (if RanOut(rc, |outs|) then Device.After(WorldAfter(was, channel, history), Device.DropsTaken(channel))
                                     else WorldAfter(was, channel, history))
      ensures delivered == old(delivered) + msgs && |msgs| <= |outs| && Holding(outs, msgs)
      // the count is that of the messages, unless the device was closed from the start
      ensures num == if old(session.open) then |msgs| else |outs|
      ensures !old(session.open) ==> msgs == []
      ensures num == |msgs| <==> old(session.open) || outs == []
      // what each code says
      ensures rc.ERR_INVALID_CHANNEL_ID? <==> old(session.open) && !old(Here().open)
      ensures rc.ERR_DEVICE_NOT_CONNECTED? ==> session.open && session.lost && reported == old(reported)
      ensures rc.ERR_INVALID_DEVICE_ID? ==> !session.open && reported == old(reported)
      ensures rc.ERR_BUFFER_OVERFLOW? <==> reported > old(reported)
      ensures rc.ERR_BUFFER_EMPTY? ==> num == 0
      ensures rc.ERR_TIMEOUT? ==> timeout != 0 && 0 < num < |outs|
      ensures rc.STATUS_NOERROR? ==> num == |outs| || (timeout == 0 && 0 < num < |outs|)
      // a read that ran to its end found the device there and leaves no loss unreported; one that came
      // back short took all there was, and waited until the time was up
      ensures RanOut(rc, |outs|) ==> session.open && !session.lost && Here().dropped == 0
      ensures RanOut(rc, |outs|) && num < |outs| ==> Here().queue == [] && TimeIsUp(history, waits, timeout)
    {
      hide Reading, Accounted, AllQuiet, Concat, Device.Session.Valid, Device.Session.World, Buffers, Came, Survived, WorldAfter,
        Holding, AllSlept, TimeIsUp, Device.After, Since, Device.Sane, Device.AfterAll, Queue.Message.Holds, Slept;
      msgs, history := [], [];
      ReadingBegins(outs, waits);
      ReadingSays(session.World(), arrived, accepted, delivered, outs, waits, [], []);
      session.ChannelShows(channel);
      if !session.open { return ERR_INVALID_DEVICE_ID, |outs|, [], []; }
      if !session.ch[channel].open { return ERR_INVALID_CHANNEL_ID, 0, [], []; }
      if outs == [] { return STATUS_NOERROR, 0, [], []; }
      var gone;
      ghost var was, a, f, d := session.World(), arrived, accepted, delivered;
      gone, num, msgs, history := ReadLoop(outs, timeout, waits);
      ReadingSays(was, a, f, d, outs, waits, history, msgs);
      rc := Finish(gone, outs, num, timeout, was, a, f, d, waits, history, msgs);
    }

    /** The end of a read: the device gone, or losses first. */
    method Finish(gone: bool, outs: seq<Queue.Message>, num: nat, timeout: u32, ghost was: Device.World, ghost arrivedThen: nat,
                  ghost acceptedThen: seq<Msg>, ghost deliveredThen: seq<Msg>, ghost waits: seq<Wait>,
                  ghost history: seq<seq<Device.Event>>, ghost msgs: seq<Msg>) returns (rc: Code)
      requires Reading(was, arrivedThen, acceptedThen, deliveredThen, outs, waits, history, msgs)
      requires num == |msgs| && |outs| > 0 && (gone <==> !session.open || session.lost)
      modifies this`reported, session.ch[channel]
      ensures Accounted() && session.RingsKept() && Holding(outs, msgs)
      ensures session.open == old(session.open) && session.lost == old(session.lost)
      ensures gone ==> rc == if session.open then ERR_DEVICE_NOT_CONNECTED else ERR_INVALID_DEVICE_ID
      ensures RanOut(rc, |outs|) == !gone && (!gone ==> Here().dropped == 0)
      ensures session.World() == if gone then old(session.World()) else Device.After(old(session.World()), Device.DropsTaken(channel))
      ensures Here().queue == old(Here().queue) && reported >= old(reported)
      ensures rc.ERR_BUFFER_OVERFLOW? <==> reported > old(reported)
      ensures rc.ERR_BUFFER_EMPTY? ==> num == 0
      ensures rc.ERR_TIMEOUT? ==> timeout != 0 && 0 < num < |outs|
      ensures rc.STATUS_NOERROR? ==> num == |outs| || (timeout == 0 && 0 < num < |outs|)
    {
      hide Device.Session.Valid, Device.Session.World, Since, AllSlept, Queue.Message.Holds, Buffers;
      session.TenChannels();
      if gone { return if session.open then ERR_DEVICE_NOT_CONNECTED else ERR_INVALID_DEVICE_ID; }
      var dropped := TakeDropped();
      if dropped > 0 { return ERR_BUFFER_OVERFLOW; }
      if num == 0 { return ERR_BUFFER_EMPTY; }
      if timeout != 0 && num < |outs| { return ERR_TIMEOUT; }
      return STATUS_NOERROR;
    }

    lemma ReadingSays(was: Device.World, arrivedThen: nat, acceptedThen: seq<Msg>, deliveredThen: seq<Msg>,
                      outs: seq<Queue.Message>, waits: seq<Wait>, history: seq<seq<Device.Event>>, msgs: seq<Msg>)
      requires Reading(was, arrivedThen, acceptedThen, deliveredThen, outs, waits, history, msgs)
      ensures Accounted() && session.Valid() && channel < CHANNELS && |session.World().chs| == CHANNELS && Device.Sane(was)
      ensures arrived == arrivedThen + |Concat(Came(was, channel, history))| && accepted == acceptedThen + Survived(was, channel, history)
      ensures msgs + Here().queue == was.chs[channel].queue + Survived(was, channel, history)
      ensures session.World() == WorldAfter(was, channel, history) && delivered == deliveredThen + msgs
      ensures |msgs| <= |outs| && Holding(outs, msgs) && AllSlept(history, waits)
    {
    }

    /** flush_locked: the queue and its losses are forgotten, and the history with them. */
    method Flush()
      requires Accounted()
      modifies this, session.ch[channel]
      ensures Accounted() && session.World() == Device.After(old(session.World()), Device.Flush(channel))
    {
      hide Device.Session.Valid, Device.Session.World, Device.After;
      session.TenChannels();
      FlushForgets(session.World(), channel);
      session.FlushChannel(channel);
      accepted, delivered, arrived, reported := [], [], 0, 0;
    }

    lemma AccountedIsValid()
      requires Accounted()
      ensures session.Valid() && channel < CHANNELS && Device.Sane(session.World())
    {
    }

    /** The caller's messages keep their own buffers. */
    twostate lemma BuffersStay(outs: seq<Queue.Message>)
      requires old(Buffers(outs, session)) && session.RingsKept()
      ensures Buffers(outs, session)
    {
    }
  }

  /** The caller's first messages hold what was handed out. */
  ghost predicate Holding(outs: seq<Queue.Message>, msgs: seq<Msg>)
    requires |msgs| <= |outs|
    reads outs, Contents(outs)
  {
    forall i | 0 <= i < |msgs| :: outs[i].Holds(msgs[i])
  }

  function SleepsOf(waits: seq<Wait>, k: nat): seq<seq<Device.Event>>
  {
    if k < |waits| then waits[k].sleeps else []
  }

  ghost predicate AllSlept(history: seq<seq<Device.Event>>, waits: seq<Wait>)
  {
    forall k | 0 <= k < |history| :: Slept(history[k], SleepsOf(waits, k))
  }

  /** The last pop began when no time was left. */
  ghost predicate TimeIsUp(history: seq<seq<Device.Event>>, waits: seq<Wait>, timeout: u32)
  {
    |history| > |waits| || (history != [] && waits[|history| - 1].elapsed >= timeout)
  }

  lemma NothingIsQuiet(j: nat)
    ensures AllQuiet(j, Concat([]))
  {
  }

  lemma Regroup(msgs: seq<Msg>, given: seq<Msg>, left: seq<Msg>, queue: seq<Msg>, fit: seq<Msg>, was: seq<Msg>, came: seq<Msg>)
    requires given + left == queue + fit && msgs + queue == was + came
    ensures msgs + given + left == was + (came + fit)
  {
    assert msgs + given + left == msgs + (given + left) == msgs + queue + fit;
  }

  /** A pop after quiet events, for the channel's queue and losses. */
  lemma PopIs(w: Device.World, j: nat, es: seq<Device.Event>)
    requires Device.Sane(w) && j < CHANNELS && AllQuiet(j, es)
    ensures var mid, came := Device.AfterAll(w, es), Arrives(w, j, es);
            && Device.Sane(mid) && |mid.chs| == CHANNELS
            && mid.chs[j].queue == w.chs[j].queue + Fitting(w.chs[j], came)
            && |came| == |Fitting(w.chs[j], came)| + (mid.chs[j].dropped - w.chs[j].dropped)
            && mid.chs[j].open == w.chs[j].open && (mid.open ==> w.open)
  {
    hide Device.After, PushAll;
    EventsArrive(w, j, es);
    ArrivalsAreWhole(w, j, es);
    FittingIsSubsequence(w.chs[j], Arrives(w, j, es));
    StaysClosed(w, es);
  }

  lemma {:induction false} StaysClosed(w: Device.World, es: seq<Device.Event>)
    requires Device.Sane(w)
    ensures Device.AfterAll(w, es).open ==> w.open
    decreases |es|
  {
    if es != [] { StaysClosed(Device.After(w, es[0]), es[1..]); }
  }

  /** What a pop after quiet events does to the account. */
  lemma PopAccounts(w: Device.World, j: nat, es: seq<Device.Event>, accepted: seq<Msg>, delivered: seq<Msg>)
    requires Device.Sane(w) && j < CHANNELS && |w.chs| == CHANNELS && AllQuiet(j, es) && delivered + w.chs[j].queue == accepted
    ensures var mid, came, fit := Device.AfterAll(w, es), Arrives(w, j, es), Fitting(w.chs[j], Arrives(w, j, es));
            && |mid.chs| == CHANNELS
            && var st, end := Device.Verdict(mid, j), Device.Popped(mid, j);
               && |end.chs| == CHANNELS
               && (st == Device.OK ==> mid.chs[j].queue != [])
               && var given := if st == Device.OK then [mid.chs[j].queue[0]] else [];
                  && given + end.chs[j].queue == w.chs[j].queue + fit
                  && delivered + given + end.chs[j].queue == accepted + fit
                  && |came| == |fit| + (end.chs[j].dropped - w.chs[j].dropped)
                  && end.chs[j].open == w.chs[j].open && (end.open ==> w.open)
                  && (st == Device.TIMEOUT ==> end.chs[j].queue == [])
                  && (st == Device.NO_DEVICE <==> !end.open || end.lost)
                  && st in {Device.OK, Device.NO_DEVICE, Device.TIMEOUT}
  {
    hide Device.AfterAll, Arrives, Fitting, AllQuiet, PushAll, SaneAll, BringsAll;
    PopIs(w, j, es);
    var mid := Device.AfterAll(w, es);
    var end := Device.Popped(mid, j).chs[j];
    var given := if Device.Verdict(mid, j) == Device.OK then [mid.chs[j].queue[0]] else [];
    assert given + end.queue == mid.chs[j].queue;
    assert delivered + given + end.queue == delivered + (given + end.queue);
  }

  /** A read of a device already closed leaves the caller's count as it was, though nothing was read. */
  method ClosedReadKeepsCount(r: Receiver, outs: seq<Queue.Message>, timeout: u32) returns (num: nat)
    requires r.Accounted() && !r.session.open && Buffers(outs, r.session) && outs != []
    modifies r, r.session, r.session.accum, r.session.slot, r.session.ch, r.session.Rings(), outs, Contents(outs)
    ensures num == |outs| > 0 && r.delivered == old(r.delivered)
  {
    hide Came, Survived, WorldAfter, Device.Session.Valid, Device.Session.World, Holding, AllSlept, TimeIsUp;
    var rc;
    ghost var msgs, history;
    rc, num, msgs, history := r.ReadMsgs(outs, timeout, []);
  }

  lemma DropsGo(w: Device.World, j: nat)
    requires Device.Sane(w) && j < CHANNELS
    ensures var c := Device.After(w, Device.DropsTaken(j)).chs[j];
            c.queue == w.chs[j].queue && c.dropped == if w.open then 0 else w.chs[j].dropped
  {
  }

  lemma FlushForgets(w: Device.World, j: nat)
    requires Device.Sane(w) && j < CHANNELS
    ensures var c := Device.After(w, Device.Flush(j)).chs[j]; c.queue == [] && c.dropped == 0
  {
  }
}
