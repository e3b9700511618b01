/** The USB receive engine: reads posted all at once, completed by callbacks that repost them, and a
    ring between the callbacks and the reader. libusb itself is the environment: the results of its
    calls and the callbacks it makes are inputs. */
module UsbReceive {
  import opened Bytes
  import opened Ring

  /** USB_RX_TRANSFERS, USB_RX_LEN and USB_RING_BYTES. */
  const TRANSFERS: nat := 256
  const READ_LEN: nat := 256
  const RING_BYTES: nat := 1024 * 1024

  /** op_status, as far as libusb errors map to it. */
  datatype Status = OK | TIMEOUT | IO | NO_DEVICE | ACCESS | OVERFLOW | PARAM

  datatype Completion = Completed(bytes: seq<byte>) | Cancelled | DeviceGone | Broken

  /** The engine on values: which slots are flying, the error to report, the bytes waiting, and the
      history: the transfers kept, and the bytes the reader has had. */
  datatype Rx = Rx(flying: seq<bool>, error: Status, stopping: bool, waiting: seq<byte>, dropped: nat,
                   kept: seq<seq<byte>>, delivered: seq<byte>, capacity: nat)

  /** rx_fail: a lost device stays lost. */
  function Fail(rx: Rx, st: Status): Rx
  {
    if rx.error.NO_DEVICE? then rx else rx.(error := st)
  }

  /** rx_submit. */
  function Submit(rx: Rx, i: nat, result: Status): Rx
    requires i < |rx.flying|
  {
    if result.OK? then rx.(flying := rx.flying[i := true]) else Fail(rx, result)
  }

  /** ring_put: a read that does not fit is dropped whole. */
  function Store(rx: Rx, bytes: seq<byte>): Rx
  {
    if |rx.waiting| + |bytes| > rx.capacity then rx.(dropped := rx.dropped + |bytes|)
    else rx.(waiting := rx.waiting + bytes, kept := rx.kept + [bytes])
  }

  /** rx_done. */
  function Finish(rx: Rx, i: nat, c: Completion, resubmit: Status): Rx
    requires i < |rx.flying|
  {
    var down := rx.(flying := rx.flying[i := false]);
    match c
    case Completed(bytes) =>
      var stored := if bytes == [] then down else Store(down, bytes);
      if rx.stopping then stored else Submit(stored, i, resubmit)
    case Cancelled => down
    case DeviceGone => Fail(down, NO_DEVICE)
    case Broken => Fail(down, IO)
  }

  /** The posting loops: every slot from `i` on that is not flying, until one fails. */
  function SubmitFrom(rx: Rx, i: nat, results: seq<Status>): (rx': Rx)
    requires |results| == |rx.flying|
    ensures |rx'.flying| == |rx.flying|
    decreases |rx.flying| - i
  {
    if i >= |rx.flying| || !rx.error.OK? then rx
    else SubmitFrom(if rx.flying[i] then rx else Submit(rx, i, results[i]), i + 1, results)
  }

  /** usb_read once its wait is over. */
  datatype ReadResult = ReadResult(st: Status, got: seq<byte>, rx: Rx)

  function Read(rx: Rx, cap: nat, results: seq<Status>): ReadResult
    requires |results| == |rx.flying|
  {
    var n := Min(|rx.waiting|, cap);
    if rx.waiting != [] then
      ReadResult(OK, rx.waiting[..n],
                 rx.(waiting := rx.waiting[n..], delivered := rx.delivered + rx.waiting[..n], dropped := 0))
    else if rx.error.OK? then ReadResult(TIMEOUT, [], rx.(dropped := 0))
    else if rx.error.NO_DEVICE? then ReadResult(NO_DEVICE, [], rx.(dropped := 0))
    else ReadResult(rx.error, [], SubmitFrom(rx.(error := OK), 0, results).(dropped := 0))
  }

  // ---- runs ----

  datatype Step =
    | Callback(slot: nat, completion: Completion, resubmit: Status)
    | ReadCall(cap: nat, results: seq<Status>)
    | Stop

  /** Callbacks come for flying slots only. */
  predicate Enabled(rx: Rx, step: Step)
  {
    match step
    case Callback(i, _, _) => i < |rx.flying| && rx.flying[i]
    case ReadCall(_, results) => |results| == |rx.flying|
    case Stop => true
  }

  function Apply(rx: Rx, step: Step): (rx': Rx)
    requires Enabled(rx, step)
    ensures |rx'.flying| == |rx.flying|
  {
    match step
    case Callback(i, c, resubmit) => Finish(rx, i, c, resubmit)
    case ReadCall(cap, results) => Read(rx, cap, results).rx
    case Stop => rx.(stopping := true)
  }

  ghost predicate CanRun(rx: Rx, steps: seq<Step>)
    decreases |steps|
  {
    steps == [] || (Enabled(rx, steps[0]) && CanRun(Apply(rx, steps[0]), steps[1..]))
  }

  ghost function Run(rx: Rx, steps: seq<Step>): (rx': Rx)
    requires CanRun(rx, steps)
    ensures |rx'.flying| == |rx.flying|
    decreases |steps|
  {
    if steps == [] then rx else Run(Apply(rx, steps[0]), steps[1..])
  }

  lemma {:induction false} RunSplits(rx: Rx, a: seq<Step>, b: seq<Step>)
    requires CanRun(rx, a + b)
    ensures CanRun(rx, a) && CanRun(Run(rx, a), b) && Run(rx, a + b) == Run(Run(rx, a), b)
    decreases |a|
  {
    hide Apply, Enabled;
    if a == [] {
      assert a + b == b;
    } else {
      assert (a + b)[1..] == a[1..] + b;
      RunSplits(Apply(rx, a[0]), a[1..], b);
    }
  }

  /** What a read sleeps on. */
  predicate NothingYet(rx: Rx) { rx.waiting == [] && rx.error.OK? }

  lemma NothingCame(rx: Rx, wakes: seq<seq<Step>>)
    ensures CanRun(rx, Concat(wakes[..0]))
  {
  }

  lemma NothingRuns(rx: Rx)
    ensures CanRun(rx, []) && Run(rx, []) == rx
  {
  }

  lemma WakeSplits(rx: Rx, wakes: seq<seq<Step>>, k: nat)
    requires k < |wakes| && CanRun(rx, Concat(wakes)) && forall i | 0 <= i < |Concat(wakes)| :: Concat(wakes)[i].Callback?
    ensures CanRun(rx, Concat(wakes[..k])) && CanRun(Run(rx, Concat(wakes[..k])), wakes[k])
    ensures CanRun(rx, Concat(wakes[..k + 1]))
    ensures Run(rx, Concat(wakes[..k + 1])) == Run(Run(rx, Concat(wakes[..k])), wakes[k])
    ensures forall i | 0 <= i < |wakes[k]| :: wakes[k][i].Callback?
  {
    hide Apply, Enabled, CanRun, Run;
    var before, upTo := Concat(wakes[..k]), Concat(wakes[..k + 1]);
    assert wakes[..k + 1] == wakes[..k] + [wakes[k]] && wakes == wakes[..k + 1] + wakes[k + 1..];
    ConcatAppend(wakes[..k], [wakes[k]]);
    ConcatAppend(wakes[..k + 1], wakes[k + 1..]);
    assert Concat([wakes[k]]) == wakes[k];
    RunSplits(rx, upTo, Concat(wakes[k + 1..]));
    RunSplits(rx, before, wakes[k]);
    forall i | 0 <= i < |wakes[k]| ensures wakes[k][i].Callback? {
      assert Concat(wakes)[|before| + i] == wakes[k][i];
    }
  }

  function Count(flying: seq<bool>): nat
  {
    if flying == [] then 0 else Count(flying[..|flying| - 1]) + if flying[|flying| - 1] then 1 else 0
  }

  lemma {:induction false} CountUpdate(flying: seq<bool>, i: nat, now: bool)
    requires i < |flying|
    ensures Count(flying[i := now]) == Count(flying) - (if flying[i] then 1 else 0) + (if now then 1 else 0)
  {
    var n := |flying| - 1;
    if i == n {
      assert flying[i := now][..n] == flying[..n];
    } else {
      CountUpdate(flying[..n], i, now);
      assert flying[i := now][..n] == flying[..n][i := now];
    }
  }

  lemma {:induction false} CountNone(flying: seq<bool>)
    ensures Count(flying) == 0 <==> forall i | 0 <= i < |flying| :: !flying[i]
  {
    if flying != [] {
      CountNone(flying[..|flying| - 1]);
      assert Count(flying) == 0 ==> forall i | 0 <= i < |flying| - 1 :: flying[i] == flying[..|flying| - 1][i];
    }
  }

  // ---- in place ----

  class Engine {
    const flying: array<bool>
    var rxFlying: nat
    var rxError: Status
    var stopping: bool
    const ring: array<byte>
    var ringHead: nat
    var ringUsed: nat
    var ringDropped: nat
    ghost var kept: seq<seq<byte>>
    ghost var delivered: seq<byte>

    constructor (transfers: nat, capacity: nat)
      requires capacity > 0
      ensures Valid() && flying.Length == transfers && fresh(flying) && fresh(ring)
      ensures Abs() == Fresh(transfers, capacity)
    {
      flying := new bool[transfers](_ => false);
      ring := new byte[capacity](_ => 0);
      rxFlying, rxError, stopping, ringHead, ringUsed, ringDropped := 0, OK, false, 0, 0, 0;
      kept, delivered := [], [];
      new;
      CountNone(flying[..]);
      assert flying[..] == seq(transfers, _ => false);
    }

    ghost predicate Valid()
      reads this, flying, ring
    {
      rxFlying == Count(flying[..]) && ring.Length > 0 && ringHead < ring.Length && ringUsed <= ring.Length
    }

    ghost function Abs(): Rx
      requires Valid()
      reads this, flying, ring
    {
      Rx(flying[..], rxError, stopping, Span(ring[..], ringHead, ringUsed), ringDropped, kept, delivered, ring.Length)
    }

    method RingPut(src: seq<byte>)
      requires Valid()
      modifies this`ringUsed, this`ringDropped, this`kept, ring
      ensures Valid() && Abs() == Store(old(Abs()), src)
    {
      hide Span;
      if |src| > ring.Length - ringUsed {
        ringDropped := ringDropped + |src|;
        return;
      }
      ModIsWrap(ringHead + ringUsed, ring.Length);
      ghost var before := ring[..];
      CopyIn(ring, (ringHead + ringUsed) % ring.Length, src);
      SpanGrows(before, ring[..], ringHead, ringUsed, src);
      ringUsed := ringUsed + |src|;
      kept := kept + [src];
    }

    method RingGet(cap: nat) returns (dst: seq<byte>)
      requires Valid()
      modifies this`ringHead, this`ringUsed, this`delivered
      ensures Valid()
      ensures var w := old(Abs()).waiting;
              var n := Min(|w|, cap);
              && dst == w[..n]
              && Abs() == old(Abs()).(waiting := w[n..], delivered := old(delivered) + w[..n])
    {
      var n := if ringUsed < cap then ringUsed else cap;
      SpanSplits(ring[..], ringHead, n, ringUsed);
      dst := CopyOut(ring, ringHead, n);
      ModIsWrap(ringHead + n, ring.Length);
      ringHead := (ringHead + n) % ring.Length;
      ringUsed := ringUsed - n;
      delivered := delivered + dst;
    }

    method RxFail(st: Status)
      requires Valid()
      modifies this`rxError
      ensures Valid() && Abs() == Fail(old(Abs()), st)
    {
      if !rxError.NO_DEVICE? { rxError := st; }
    }

    /** `result` is what libusb_submit_transfer comes to. */
    method RxSubmit(i: nat, result: Status)
      requires Valid() && i < flying.Length && !flying[i]
      modifies this`rxError, this`rxFlying, flying
      ensures Valid() && Abs() == Submit(old(Abs()), i, result)
    {
      hide Span;
      if result.OK? {
        CountUpdate(flying[..], i, true);
        flying[i] := true;
        assert flying[..] == old(flying[..])[i := true];
        rxFlying := rxFlying + 1;
        return;
      }
      RxFail(result);
    }

    /** The callback of slot `i`. */
    method RxDone(i: nat, c: Completion, resubmit: Status)
      requires Valid() && i < flying.Length && flying[i]
      modifies this`rxError, this`rxFlying, this`ringUsed, this`ringDropped, this`kept, flying, ring
      ensures Valid() && Abs() == Finish(old(Abs()), i, c, resubmit)
    {
      hide Span, Store, Submit, Fail;
      Land(i);
      match c
      case Completed(bytes) =>
        if bytes != [] { RingPut(bytes); }
        if !stopping { RxSubmit(i, resubmit); }
      case Cancelled =>
      case DeviceGone => RxFail(NO_DEVICE);
      case Broken => RxFail(IO);
    }

    method Land(i: nat)
      requires Valid() && i < flying.Length && flying[i]
      modifies this`rxFlying, flying
      ensures Valid() && Abs() == old(Abs()).(flying := old(Abs()).flying[i := false])
    {
      hide Span;
      CountUpdate(flying[..], i, false);
      flying[i] := false;
      assert flying[..] == old(flying[..])[i := false];
      rxFlying := rxFlying - 1;
    }

    /** The loops of rx_start and usb_read. */
    method PostAll(results: seq<Status>)
      requires Valid() && |results| == flying.Length
      modifies this`rxError, this`rxFlying, flying
      ensures Valid() && Abs() == SubmitFrom(old(Abs()), 0, results)
    {
      hide Submit, Span;
      var i := 0;
      while i < flying.Length && rxError.OK?
        invariant i <= flying.Length && Valid()
        invariant SubmitFrom(old(Abs()), 0, results) == SubmitFrom(Abs(), i, results)
      {
        if !flying[i] { RxSubmit(i, results[i]); }
        i := i + 1;
      }
    }

    /** rx_start, its allocations made. */
    method RxStart(results: seq<Status>) returns (st: Status)
      requires Valid() && |results| == flying.Length
      modifies this`rxError, this`rxFlying, flying
      ensures Valid() && Abs() == SubmitFrom(old(Abs()), 0, results) && st == rxError
    {
      PostAll(results);
      st := rxError;
    }

    /** The callbacks that come while a reader waits, until it has the lock again. */
    method Callbacks(steps: seq<Step>)
      requires Valid() && CanRun(Abs(), steps) && forall i | 0 <= i < |steps| :: steps[i].Callback?
      modifies this`rxError, this`rxFlying, this`ringUsed, this`ringDropped, this`kept, flying, ring
      ensures Valid() && Abs() == Run(old(Abs()), steps)
      decreases |steps|
    {
      hide Finish, Span;
      if steps == [] { return; }
      RxDone(steps[0].slot, steps[0].completion, steps[0].resubmit);
      Callbacks(steps[1..]);
    }

    /** The wait of usb_read: `wakes` are the callbacks between one look at the engine and the next, and
        at their end the time is up. `used` is how many times it slept. */
    method WaitForData(wakes: seq<seq<Step>>) returns (used: nat)
      requires Valid() && CanRun(Abs(), Concat(wakes))
      requires forall i | 0 <= i < |Concat(wakes)| :: Concat(wakes)[i].Callback?
      modifies this`rxError, this`rxFlying, this`ringUsed, this`ringDropped, this`kept, flying, ring
      ensures Valid() && used <= |wakes| && CanRun(old(Abs()), Concat(wakes[..used]))
      ensures Abs() == Run(old(Abs()), Concat(wakes[..used]))
      ensures used < |wakes| ==> !NothingYet(Abs())
      ensures used > 0 ==> NothingYet(old(Abs()))
    {
      hide Span, CanRun, Run;
      used := 0;
      assert wakes[..0] == [];
      ghost var rx := Abs();
      NothingRuns(rx);
      while ringUsed == 0 && rxError.OK? && used < |wakes|
        invariant used <= |wakes| && Valid() && (used > 0 ==> NothingYet(rx))
        invariant CanRun(rx, Concat(wakes[..used])) && Abs() == Run(rx, Concat(wakes[..used]))
      {
        WakeSplits(rx, wakes, used);
        Callbacks(wakes[used]);
        used := used + 1;
      }
    }

    /** What usb_read does once its wait is over. */
    method TakeWhatIsThere(cap: nat, results: seq<Status>) returns (st: Status, got: seq<byte>)
      requires Valid() && |results| == flying.Length
      modifies this, flying
      ensures Valid() && ReadResult(st, got, Abs()) == Read(old(Abs()), cap, results)
    {
      hide SubmitFrom, Span;
      st, got := TIMEOUT, [];
      if ringUsed > 0 {
        got := RingGet(cap);
        st := OK;
      } else if !rxError.OK? {
        st := rxError;
        if !st.NO_DEVICE? {
          rxError := OK;
          PostAll(results);
        }
      }
      ringDropped := 0;
    }

    /** usb_read. A read of no bytes is refused; any other sleeps until there is something or the time is up. */
    method UsbRead(cap: nat, wakes: seq<seq<Step>>, results: seq<Status>) returns (st: Status, got: seq<byte>, used: nat)
      requires Valid() && |results| == flying.Length && CanRun(Abs(), Concat(wakes))
      requires forall i | 0 <= i < |Concat(wakes)| :: Concat(wakes)[i].Callback?
      modifies this, flying, ring
      ensures Valid() && used <= |wakes| && CanRun(old(Abs()), Concat(wakes[..used]))
      ensures cap == 0 ==> st == PARAM && got == [] && used == 0 && Abs() == old(Abs())
      ensures cap > 0 ==> ReadResult(st, got, Abs()) == Read(Run(old(Abs()), Concat(wakes[..used])), cap, results)
      ensures cap > 0 && used < |wakes| ==> !NothingYet(Run(old(Abs()), Concat(wakes[..used])))
      ensures used > 0 ==> NothingYet(old(Abs()))
    {
      hide Read, Span, Run, CanRun, Concat;
      if cap == 0 {
        NothingCame(Abs(), wakes);
        return PARAM, [], 0;
      }
      used := WaitForData(wakes);
      st, got := TakeWhatIsThere(cap, results);
    }

    /** The start of rx_stop. */
    method BeginStop()
      requires Valid()
      modifies this`stopping
      ensures Valid() && Abs() == old(Abs()).(stopping := true)
    {
      stopping := true;
    }

    /** The end of rx_stop, the event thread joined: which transfers are freed. */
    method FreeTransfers() returns (freed: seq<bool>)
      requires Valid()
      ensures |freed| == flying.Length && forall i | 0 <= i < |freed| :: freed[i] <==> !flying[i]
      ensures rxFlying == 0 ==> forall i | 0 <= i < |freed| :: freed[i]
    {
      freed := [];
      for i := 0 to flying.Length
        invariant |freed| == i && forall k | 0 <= k < i :: freed[k] <==> !flying[k]
      {
        freed := freed + [!flying[i]];
      }
      CountNone(flying[..]);
    }
  }

  // ---- every run ----

  predicate AllFlying(flying: seq<bool>) { forall i | 0 <= i < |flying| :: flying[i] }

  /** The slots whose read was cancelled while nobody was stopping the engine, and not posted since. */
  function CancelledAfter(rx: Rx, lost: set<nat>, step: Step): set<nat>
    requires Enabled(rx, step)
  {
    var now := if step.Callback? && step.completion.Cancelled? && !rx.stopping then lost + {step.slot} else lost;
    set i | i in now && !(i < |rx.flying| && Apply(rx, step).flying[i])
  }

  ghost function Cancelled(rx: Rx, lost: set<nat>, steps: seq<Step>): set<nat>
    requires CanRun(rx, steps)
    decreases |steps|
  {
    if steps == [] then lost else Cancelled(Apply(rx, steps[0]), CancelledAfter(rx, lost, steps[0]), steps[1..])
  }

  /** While nothing has gone wrong and nobody has stopped it, every read is posted except those lost; and
      what was read is, in order, the transfers that were kept. */
  ghost predicate Inv(rx: Rx, lost: set<nat>)
  {
    && (!rx.stopping && rx.error.OK? ==> forall i | 0 <= i < |rx.flying| :: rx.flying[i] <==> i !in lost)
    && (forall i | 0 <= i < |rx.flying| :: rx.flying[i] ==> i !in lost)
    && rx.delivered + rx.waiting == Concat(rx.kept)
    && |rx.waiting| <= rx.capacity
  }

  lemma {:induction false} PostingReachesAll(rx: Rx, i: nat, results: seq<Status>)
    requires |results| == |rx.flying| && i <= |rx.flying| && forall k | 0 <= k < i :: rx.flying[k]
    ensures var after := SubmitFrom(rx, i, results);
            && |after.flying| == |rx.flying|
            && after == rx.(flying := after.flying, error := after.error)
            && (after.error.OK? ==> AllFlying(after.flying))
            && (rx.error.NO_DEVICE? ==> after.error.NO_DEVICE?)
    decreases |rx.flying| - i
  {
    if i < |rx.flying| && rx.error.OK? {
      var next := if rx.flying[i] then rx else Submit(rx, i, results[i]);
      if next.error.OK? {
        PostingReachesAll(next, i + 1, results);
      } else {
        assert SubmitFrom(next, i + 1, results) == next;
      }
    }
  }

  /** What a posting loop leaves when its first failure is at slot `k`, or, with none, is through: every slot before
      that is posted, the others are as they were, and the failure is the error. */
  ghost predicate PostedUpTo(rx: Rx, after: Rx, results: seq<Status>, k: nat)
    requires |results| == |rx.flying| == |after.flying|
  {
    && k <= |rx.flying| && (forall i | 0 <= i < k :: rx.flying[i] || results[i].OK?)
    && (k < |rx.flying| ==> !rx.flying[k] && !results[k].OK?)
    && (forall i | 0 <= i < |rx.flying| :: after.flying[i] <==> i < k || rx.flying[i])
    && after == rx.(flying := after.flying, error := if k < |rx.flying| then results[k] else OK)
  }

  lemma {:induction false} PostingStopsAtFailure(rx: Rx, i: nat, results: seq<Status>) returns (k: nat)
    requires |results| == |rx.flying| && i <= |rx.flying| && rx.error.OK? && forall j | 0 <= j < i :: rx.flying[j]
    ensures i <= k && PostedUpTo(rx, SubmitFrom(rx, i, results), results, k)
    decreases |rx.flying| - i
  {
    k := i;
    if i < |rx.flying| {
      var next := if rx.flying[i] then rx else Submit(rx, i, results[i]);
      if next.error.OK? {
        k := PostingStopsAtFailure(next, i + 1, results);
        assert forall j | 0 <= j < |rx.flying| :: next.flying[j] <==> j == i || rx.flying[j];
      } else {
        assert SubmitFrom(next, i + 1, results) == next;
      }
    }
  }

  /** An error is reported by one read, with all bytes taken before it: a lost device for good, any other is cleared
      by the report, and every slot then is posted again until one fails. */
  lemma ErrorIsReportedOnce(rx: Rx, cap: nat, results: seq<Status>) returns (k: nat)
    requires |results| == |rx.flying| && cap > 0
    ensures var out := Read(rx, cap, results);
            && (out.got != [] <==> rx.waiting != [])
            && (rx.waiting != [] ==>
                  && out.st.OK? && out.got <= rx.waiting && (|out.got| == cap || out.got == rx.waiting)
                  && out.rx.error == rx.error && out.rx.flying == rx.flying)
            && (rx.waiting == [] ==> out.st == if rx.error.OK? then TIMEOUT else rx.error)
            && (rx.waiting == [] && (rx.error.OK? || rx.error.NO_DEVICE?) ==> out.rx == rx.(dropped := 0))
            && (rx.waiting == [] && !rx.error.OK? && !rx.error.NO_DEVICE? ==>
                  PostedUpTo(rx.(error := OK, dropped := 0), out.rx, results, k))
  {
    k := 0;
    if rx.waiting == [] && !rx.error.OK? && !rx.error.NO_DEVICE? { k := PostingStopsAtFailure(rx.(error := OK), 0, results); }
  }

  lemma KeptAppends(rx: Rx, bytes: seq<byte>)
    requires rx.delivered + rx.waiting == Concat(rx.kept) && |rx.waiting| <= rx.capacity
    ensures var after := Store(rx, bytes);
            after.delivered + after.waiting == Concat(after.kept) && |after.waiting| <= after.capacity
  {
    ConcatAppend(rx.kept, [bytes]);
    assert Concat([bytes]) == bytes;
    assert rx.delivered + (rx.waiting + bytes) == rx.delivered + rx.waiting + bytes;
  }

  lemma CallbackKeepsInv(rx: Rx, lost: set<nat>, step: Step)
    requires Inv(rx, lost) && step.Callback? && Enabled(rx, step)
    ensures Inv(Apply(rx, step), CancelledAfter(rx, lost, step))
  {
    hide Concat;
    if step.completion.Completed? { KeptAppends(rx, step.completion.bytes); }
  }

  lemma ReadKeepsInv(rx: Rx, lost: set<nat>, step: Step)
    requires Inv(rx, lost) && step.ReadCall? && Enabled(rx, step)
    ensures Inv(Apply(rx, step), CancelledAfter(rx, lost, step)) && (rx.error.NO_DEVICE? ==> Apply(rx, step).error.NO_DEVICE?)
  {
    hide Concat, SubmitFrom, CancelledAfter;
    var n := Min(|rx.waiting|, step.cap);
    assert rx.delivered + rx.waiting[..n] + rx.waiting[n..] == rx.delivered + rx.waiting;
    PostingReachesAll(rx.(error := OK), 0, step.results);
    ReadLoses(rx, lost, step);
  }

  lemma ReadLoses(rx: Rx, lost: set<nat>, step: Step)
    requires step.ReadCall? && Enabled(rx, step)
    ensures forall i | i < |rx.flying| :: i in CancelledAfter(rx, lost, step) <==> i in lost && !Apply(rx, step).flying[i]
  {
    hide Apply;
  }

  lemma StepKeepsInv(rx: Rx, lost: set<nat>, step: Step)
    requires Inv(rx, lost) && Enabled(rx, step)
    ensures Inv(Apply(rx, step), CancelledAfter(rx, lost, step))
    ensures rx.error.NO_DEVICE? ==> Apply(rx, step).error.NO_DEVICE?
  {
    match step
    case Callback(_, _, _) => CallbackKeepsInv(rx, lost, step);
    case ReadCall(_, _) => ReadKeepsInv(rx, lost, step);
    case Stop =>
  }

  lemma {:induction false} RunKeepsInv(rx: Rx, lost: set<nat>, steps: seq<Step>)
    requires Inv(rx, lost) && CanRun(rx, steps)
    ensures Inv(Run(rx, steps), Cancelled(rx, lost, steps)) && (rx.error.NO_DEVICE? ==> Run(rx, steps).error.NO_DEVICE?)
    decreases |steps|
  {
    hide Inv, Apply, Enabled, CancelledAfter;
    if steps != [] {
      StepKeepsInv(rx, lost, steps[0]);
      RunKeepsInv(Apply(rx, steps[0]), CancelledAfter(rx, lost, steps[0]), steps[1..]);
    }
  }

  /** No read is cancelled in a run except after a stop. */
  ghost predicate NoneCancelled(rx: Rx, steps: seq<Step>)
    requires CanRun(rx, steps)
    decreases |steps|
  {
    steps == [] || (!(steps[0].Callback? && steps[0].completion.Cancelled? && !rx.stopping) && NoneCancelled(Apply(rx, steps[0]), steps[1..]))
  }

  lemma {:induction false} NoneCancelledNoneLost(rx: Rx, steps: seq<Step>)
    requires CanRun(rx, steps) && NoneCancelled(rx, steps)
    ensures Cancelled(rx, {}, steps) == {}
    decreases |steps|
  {
    hide Apply, Enabled;
    if steps != [] {
      assert CancelledAfter(rx, {}, steps[0]) == {};
      NoneCancelledNoneLost(Apply(rx, steps[0]), steps[1..]);
    }
  }

  /** A stopping engine posts nothing from a callback: the slot that called back stays down. */
  lemma StoppedPostsNothing(rx: Rx, i: nat, c: Completion, resubmit: Status)
    requires i < |rx.flying| && rx.stopping
    ensures Finish(rx, i, c, resubmit).flying == rx.flying[i := false] && Finish(rx, i, c, resubmit).stopping
  {
  }

  /** So a run of callbacks alone only takes slots down, and one for every slot leaves none flying. */
  lemma {:induction false} StoppedEngineEmpties(rx: Rx, steps: seq<Step>)
    requires CanRun(rx, steps) && rx.stopping && forall i | 0 <= i < |steps| :: steps[i].Callback?
    ensures Run(rx, steps).stopping
    ensures forall i | 0 <= i < |rx.flying| :: Run(rx, steps).flying[i]
              <==> rx.flying[i] && forall k | 0 <= k < |steps| :: steps[k].slot != i
    decreases |steps|
  {
    hide Finish;
    if steps != [] {
      var s := steps[0];
      StoppedPostsNothing(rx, s.slot, s.completion, s.resubmit);
      StoppedEngineEmpties(Apply(rx, s), steps[1..]);
      forall i | 0 <= i < |rx.flying|
        ensures Run(rx, steps).flying[i] <==> rx.flying[i] && forall k | 0 <= k < |steps| :: steps[k].slot != i
      {
        assert forall k | 0 < k < |steps| :: steps[k] == steps[1..][k - 1];
        assert (forall k | 0 <= k < |steps| :: steps[k].slot != i)
           <==> s.slot != i && forall k | 0 <= k < |steps[1..]| :: steps[1..][k].slot != i;
      }
    }
  }

  /** The non-empty transfers completed in a run, and those of them that fitted when they came. */
  function Completions(steps: seq<Step>): seq<seq<byte>>
  {
    if steps == [] then [] else CompletedBy(steps[0]) + Completions(steps[1..])
  }

  function CompletedBy(step: Step): seq<seq<byte>>
  {
    if step.Callback? && step.completion.Completed? && step.completion.bytes != [] then [step.completion.bytes] else []
  }

  function KeptBy(rx: Rx, step: Step): seq<seq<byte>>
  {
    if CompletedBy(step) != [] && |rx.waiting| + |CompletedBy(step)[0]| <= rx.capacity then CompletedBy(step) else []
  }

  ghost function KeptIn(rx: Rx, steps: seq<Step>): seq<seq<byte>>
    requires CanRun(rx, steps)
    decreases |steps|
  {
    if steps == [] then [] else KeptBy(rx, steps[0]) + KeptIn(Apply(rx, steps[0]), steps[1..])
  }

  lemma StepKeeps(rx: Rx, step: Step)
    requires Enabled(rx, step)
    ensures Apply(rx, step).kept == rx.kept + KeptBy(rx, step) && Apply(rx, step).capacity == rx.capacity
    ensures |Apply(rx, step).waiting| <= |rx.waiting| + |Concat(CompletedBy(step))|
  {
    if step.ReadCall? { PostingKeeps(rx.(error := OK), 0, step.results); }
  }

  lemma {:induction false} PostingKeeps(rx: Rx, i: nat, results: seq<Status>)
    requires |results| == |rx.flying|
    ensures var after := SubmitFrom(rx, i, results);
            after.kept == rx.kept && after.capacity == rx.capacity && after.waiting == rx.waiting
    decreases |rx.flying| - i
  {
    if i < |rx.flying| && rx.error.OK? {
      PostingKeeps(if rx.flying[i] then rx else Submit(rx, i, results[i]), i + 1, results);
    }
  }

  /** What a run keeps is what fitted of what was completed in it, in order. */
  lemma {:induction false} RunKeeps(rx: Rx, steps: seq<Step>)
    requires CanRun(rx, steps)
    ensures Run(rx, steps).kept == rx.kept + KeptIn(rx, steps)
    ensures IsSubsequence(KeptIn(rx, steps), Completions(steps))
    decreases |steps|
  {
    hide Apply, Enabled;
    if steps == [] {
      assert rx.kept + [] == rx.kept;
    } else {
      StepKeeps(rx, steps[0]);
      RunKeeps(Apply(rx, steps[0]), steps[1..]);
      var kept, more := KeptBy(rx, steps[0]), KeptIn(Apply(rx, steps[0]), steps[1..]);
      assert rx.kept + kept + more == rx.kept + (kept + more);
      assert IsSubsequence(kept, CompletedBy(steps[0]));
      SubsequencesAppend(kept, CompletedBy(steps[0]), more, Completions(steps[1..]));
    }
  }

  /** The engine as rx_start begins with it. */
  function Fresh(transfers: nat, capacity: nat): Rx
  {
    Rx(seq(transfers, _ => false), OK, false, [], 0, [], [], capacity)
  }

  lemma LostStaysLost(rx: Rx, lost: set<nat>, steps: seq<Step>, n: nat)
    requires Inv(rx, lost) && CanRun(rx, steps) && n <= |steps|
    ensures CanRun(rx, steps[..n]) && (Run(rx, steps[..n]).error.NO_DEVICE? ==> Run(rx, steps).error.NO_DEVICE?)
  {
    hide Apply, Enabled, Inv;
    assert steps[..n] + steps[n..] == steps;
    RunSplits(rx, steps[..n], steps[n..]);
    RunKeepsInv(rx, lost, steps[..n]);
    RunKeepsInv(Run(rx, steps[..n]), Cancelled(rx, lost, steps[..n]), steps[n..]);
  }

  /** From a successful start, over every run of callbacks, failures, reads and stops: while the engine
      is running without an error the reads posted are exactly those not cancelled before a stop and not
      posted since, all of them when none was; the reader has had, in order, less what still
      waits, those completed transfers that fitted when they came; and a device once lost stays lost. */
  lemma PostedReads(transfers: nat, capacity: nat, results: seq<Status>, steps: seq<Step>, n: nat)
    requires |results| == transfers && n <= |steps|
    requires var started := SubmitFrom(Fresh(transfers, capacity), 0, results); started.error.OK? && CanRun(started, steps)
    ensures var started := SubmitFrom(Fresh(transfers, capacity), 0, results);
            var end := Run(started, steps);
            && (!end.stopping && end.error.OK? ==>
                  forall i | 0 <= i < transfers :: end.flying[i] <==> i !in Cancelled(started, {}, steps))
            && (!end.stopping && end.error.OK? && NoneCancelled(started, steps) ==> AllFlying(end.flying))
            && end.delivered + end.waiting == Concat(KeptIn(started, steps))
            && IsSubsequence(KeptIn(started, steps), Completions(steps))
            && CanRun(started, steps[..n])
            && (Run(started, steps[..n]).error.NO_DEVICE? ==> end.error.NO_DEVICE?)
  {
    hide Apply, Enabled, CanRun, Run, NoneCancelled, KeptIn, Completions, IsSubsequence;
    var started := SubmitFrom(Fresh(transfers, capacity), 0, results);
    PostingReachesAll(Fresh(transfers, capacity), 0, results);
    RunKeepsInv(started, {}, steps);
    if NoneCancelled(started, steps) { NoneCancelledNoneLost(started, steps); }
    RunKeeps(started, steps);
    assert [] + KeptIn(started, steps) == KeptIn(started, steps);
    LostStaysLost(started, {}, steps, n);
  }

  /** Once a callback has found the device gone, whatever happens next: a read that finds no bytes says so. */
  lemma LossIsReported(rx: Rx, lost: set<nat>, i: nat, resubmit: Status, steps: seq<Step>, cap: nat, results: seq<Status>)
    requires Inv(rx, lost) && i < |rx.flying| && rx.flying[i] && |results| == |rx.flying| && cap > 0
    requires CanRun(Finish(rx, i, DeviceGone, resubmit), steps)
    ensures var end := Run(Finish(rx, i, DeviceGone, resubmit), steps);
            |end.flying| == |rx.flying| && (end.waiting == [] ==> Read(end, cap, results).st == NO_DEVICE)
  {
    hide Inv, CancelledAfter;
    var gone := Callback(i, DeviceGone, resubmit);
    StepKeepsInv(rx, lost, gone);
    RunKeepsInv(Apply(rx, gone), CancelledAfter(rx, lost, gone), steps);
  }

  lemma OneCompleted(step: Step)
    requires CompletedBy(step) != []
    ensures Concat(CompletedBy(step)) == CompletedBy(step)[0]
  {
  }

  /** Completions that come while nobody reads are all kept as long as they fit one behind the other. */
  lemma {:induction false} NothingLostWhileRoom(rx: Rx, steps: seq<Step>, each: nat)
    requires CanRun(rx, steps) && forall i | 0 <= i < |steps| :: |Concat(CompletedBy(steps[i]))| <= each
    requires |rx.waiting| + |steps| * each <= rx.capacity
    ensures KeptIn(rx, steps) == Completions(steps)
    decreases |steps|
  {
    hide Apply, Enabled, Concat;
    if steps != [] {
      assert |steps| * each == each + (|steps| - 1) * each;
      StepKeeps(rx, steps[0]);
      if CompletedBy(steps[0]) != [] { OneCompleted(steps[0]); }
      NothingLostWhileRoom(Apply(rx, steps[0]), steps[1..], each);
    }
  }

  /** The driver's ring takes every posted read sixteen times over before it loses one. */
  lemma DriverRingHolds(rx: Rx, steps: seq<Step>)
    requires CanRun(rx, steps) && rx.waiting == [] && rx.capacity == RING_BYTES && |steps| <= 16 * TRANSFERS
    requires forall i | 0 <= i < |steps| :: |Concat(CompletedBy(steps[i]))| <= READ_LEN
    ensures KeptIn(rx, steps) == Completions(steps)
  {
    NothingLostWhileRoom(rx, steps, READ_LEN);
  }
}
