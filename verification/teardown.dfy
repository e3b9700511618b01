/** Closing the device while commands, receivers, the reader and other closers run. Each critical
    section under `lock` is one step; `cmd_lock` is held from step to step and modelled as such.
    The session has been synchronised, and nobody reopens the device meanwhile. */
module Teardown {

  /** cmd_exchange. From Locked to Leaving the thread holds cmd_lock. */
  datatype CommandAt = Start | Locked | Claiming | InWrite | Checking | Asleep(signaled: bool) | Leaving | Done

  /** op_device_close. From Stopping to Unlocking the thread holds cmd_lock. */
  datatype CloseAt = Enter | WantLock | Stopping | Joining | ClosingTransport | Unlocking | Closed

  /** op_device_pop. */
  datatype PopAt = Look | Sleeping(signaled: bool) | Popped

  /** reader_main. */
  datatype ReaderAt = Top | InRead | Handling | Losing | Exited

  datatype Thread = Command(cmd: CommandAt) | Closer(close: CloseAt) | Popper(pop: PopAt)

  datatype Owner = Nobody | Held(who: nat)

  /** What the threads share. `closer` is the thread that found the device open and closed it.
      `misused` is set by a read or write of a closed transport and by a second close of it. */
  datatype Shared = Shared(open: bool, lost: bool, stop: bool, cmdLock: Owner, replyValid: bool, queued: bool,
                           transportOpen: bool, closes: nat, misused: bool, reader: ReaderAt, closer: Owner)
  {
    /** A use of the transport. */
    function Used(): Shared { this.(misused := misused || !transportOpen) }
  }

  datatype State = State(g: Shared, threads: seq<Thread>)

  datatype ReadOutcome = Nothing | Bytes | Gone

  datatype Step =
    | Advance(i: nat, more: bool)   // the thread's next action; `more`: a pop leaves messages queued
    | WriteEnds(i: nat)             // the write fails, or the command does not wait for its reply
    | TimesOut(i: nat, more: bool)
    | ReadReturns(outcome: ReadOutcome)
    | ReaderAdvances(reply: bool, message: bool)

  /** Which condition variables are broadcast: reply_cv, on which commands sleep, and rx_cv, on which
      receivers do. */
  datatype Wake = Wake(replies: bool, messages: bool)

  const NO_WAKE := Wake(false, false)
  const WAKE_ALL := Wake(true, true)

  function Signal(t: Thread, w: Wake): Thread
  {
    match t
    case Command(Asleep(signaled)) => Command(Asleep(signaled || w.replies))
    case Popper(Sleeping(signaled)) => Popper(Sleeping(signaled || w.messages))
    case _ => t
  }

  function SignalAll(threads: seq<Thread>, w: Wake): (out: seq<Thread>)
    ensures |out| == |threads|
  {
    seq(|threads|, i requires 0 <= i < |threads| => Signal(threads[i], w))
  }

  /** Whether a thread can take its next action by itself. */
  predicate Ready(g: Shared, t: Thread)
  {
    match t
    case Command(at) => (at.Start? ==> g.cmdLock.Nobody?) && (at.Asleep? ==> at.signaled) && !at.Done?
    case Closer(at) => (at.WantLock? ==> g.cmdLock.Nobody?) && (at.Joining? ==> g.reader.Exited?) && !at.Closed?
    case Popper(at) => (at.Sleeping? ==> at.signaled) && !at.Popped?
  }

  predicate Enabled(s: State, step: Step)
  {
    match step
    case Advance(i, _) => i < |s.threads| && Ready(s.g, s.threads[i])
    case WriteEnds(i) => i < |s.threads| && s.threads[i] == Command(InWrite)
    case TimesOut(i, _) =>
      i < |s.threads| && (match s.threads[i] case Command(at) => at.Asleep? case Closer(_) => false case Popper(at) => !at.Popped?)
    case ReadReturns(_) => s.g.reader.InRead?
    case ReaderAdvances(_, _) => s.g.reader.Top? || s.g.reader.Handling? || s.g.reader.Losing?
  }

  /** What one thread does: the shared state after it, the thread after it, and what it broadcasts. */
  datatype Move = Move(g: Shared, t: Thread, wake: Wake)

  function CommandMove(g: Shared, i: nat, at: CommandAt): Move
  {
    match at
    case Start => Move(g.(cmdLock := Held(i)), Command(Locked), NO_WAKE)
    case Locked => Move(g, Command(if g.open && !g.lost then Claiming else Leaving), NO_WAKE)
    case Claiming => Move(g.(replyValid := false), Command(InWrite), NO_WAKE)
    case InWrite => Move(g.Used(), Command(Checking), NO_WAKE)
    case Checking => Move(g, Command(if g.replyValid || !g.open || g.lost then Leaving else Asleep(false)), NO_WAKE)
    case Asleep(_) => Move(g, Command(Checking), NO_WAKE)
    case Leaving => Move(g.(cmdLock := Nobody), Command(Done), NO_WAKE)
    case Done => Move(g, Command(Done), NO_WAKE)
  }

  function CloserMove(g: Shared, i: nat, at: CloseAt): Move
  {
    match at
    case Enter =>
      if !g.open then Move(g, Closer(Closed), NO_WAKE)
      else Move(g.(open := false, closer := Held(i)), Closer(WantLock), WAKE_ALL)
    case WantLock => Move(g.(cmdLock := Held(i)), Closer(Stopping), NO_WAKE)
    case Stopping => Move(g.(stop := true), Closer(Joining), NO_WAKE)
    case Joining => Move(g, Closer(ClosingTransport), NO_WAKE)
    case ClosingTransport => Move(g.Used().(transportOpen := false, closes := g.closes + 1), Closer(Unlocking), NO_WAKE)
    case Unlocking => Move(g.(cmdLock := Nobody), Closer(Closed), NO_WAKE)
    case Closed => Move(g, Closer(Closed), NO_WAKE)
  }

  function PopperMove(g: Shared, more: bool, timedOut: bool): Move
  {
    if !g.open || g.lost then Move(g, Popper(Popped), NO_WAKE)
    else if g.queued then Move(g.(queued := more), Popper(Popped), NO_WAKE)
    else Move(g, Popper(if timedOut then Popped else Sleeping(false)), NO_WAKE)
  }

  predicate IsThreadStep(step: Step) { step.Advance? || step.WriteEnds? || step.TimesOut? }

  function MoveOf(s: State, step: Step): Move
    requires IsThreadStep(step) && Enabled(s, step)
  {
    match step
    case Advance(i, more) =>
      (match s.threads[i]
       case Command(at) => CommandMove(s.g, i, at)
       case Closer(at) => CloserMove(s.g, i, at)
       case Popper(_) => PopperMove(s.g, more, false))
    case WriteEnds(i) => Move(s.g.Used(), Command(Leaving), NO_WAKE)
    case TimesOut(i, more) =>
      if s.threads[i].Command? then Move(s.g, Command(Leaving), NO_WAKE) else PopperMove(s.g, more, true)
  }

  /** A reply taken by the slot broadcasts reply_cv, a queued message rx_cv, the loss of the device both. */
  function ReaderMove(g: Shared, step: Step): (out: (Shared, Wake))
  {
    match step
    case ReadReturns(outcome) =>
      (g.Used().(reader := match outcome case Nothing => Top case Bytes => Handling case Gone => Losing), NO_WAKE)
    case ReaderAdvances(reply, message) =>
      if g.reader.Top? then (g.(reader := if g.stop then Exited else InRead), NO_WAKE)
      else if g.reader.Losing? then (g.(reader := Exited, lost := true), WAKE_ALL)
      else (g.(reader := Top, replyValid := g.replyValid || reply, queued := g.queued || message), Wake(reply, message))
    case _ => (g, NO_WAKE)
  }

  function Apply(s: State, step: Step): State
    requires Enabled(s, step)
  {
    if IsThreadStep(step) then
      var m := MoveOf(s, step);
      State(m.g, SignalAll(s.threads, m.wake)[step.i := m.t])
    else
      var (g, wake) := ReaderMove(s.g, step);
      State(g, SignalAll(s.threads, wake))
  }

  /** A synchronised session with any number of threads about to call in. */
  predicate IsStart(s: State)
  {
    && s.g == Shared(true, false, false, Nobody, s.g.replyValid, s.g.queued, true, 0, false, Top, Nobody)
    && forall i | 0 <= i < |s.threads| :: s.threads[i] in {Command(Start), Closer(Enter), Popper(Look)}
  }

  predicate HoldsLock(t: Thread)
  {
    match t
    case Command(at) => !at.Start? && !at.Done?
    case Closer(at) => at.Stopping? || at.Joining? || at.ClosingTransport? || at.Unlocking?
    case Popper(_) => false
  }

  /** A command past its check of `open` and not yet on its way out. */
  predicate Underway(t: Thread)
  {
    t.Command? && (t.cmd.Claiming? || t.cmd.InWrite? || t.cmd.Checking? || t.cmd.Asleep?)
  }

  /** Where the closing thread is; Enter while nobody has closed the device. */
  function Closing(s: State): CloseAt
  {
    if s.g.closer.Held? && s.g.closer.who < |s.threads| && s.threads[s.g.closer.who].Closer?
    then s.threads[s.g.closer.who].close else Enter
  }

  // ---- the invariant ----

  /** cmd_lock is held by exactly the thread that is between taking and releasing it. */
  ghost predicate LockInv(s: State)
  {
    && (s.g.cmdLock.Held? ==> s.g.cmdLock.who < |s.threads| && HoldsLock(s.threads[s.g.cmdLock.who]))
    && forall i | 0 <= i < |s.threads| :: HoldsLock(s.threads[i]) ==> s.g.cmdLock == Held(i)
  }

  /** At most one thread closes, and how far it has got says everything about the transport. */
  ghost predicate CloserInv(s: State)
  {
    && (s.g.closer.Held? ==> s.g.closer.who < |s.threads| && s.threads[s.g.closer.who].Closer?
                             && !s.threads[s.g.closer.who].close.Enter?)
    && (forall i | 0 <= i < |s.threads| && s.threads[i].Closer? && s.g.closer != Held(i) ::
          s.threads[i].close.Enter? || s.threads[i].close.Closed?)
    && CloserAgrees(s.g, Closing(s))
  }

  predicate CloserAgrees(g: Shared, at: CloseAt)
  {
    && (g.open <==> g.closer.Nobody?) && (g.open <==> at.Enter?)
    && (g.stop <==> at.Joining? || at.ClosingTransport? || at.Unlocking? || at.Closed?)
    && (g.transportOpen <==> !at.Unlocking? && !at.Closed?)
    && g.closes == (if g.transportOpen then 0 else 1)
    && (at.ClosingTransport? || !g.transportOpen ==> g.reader.Exited?)
  }

  /** Nobody has used a closed transport, or is about to. */
  ghost predicate UseInv(s: State)
  {
    && !s.g.misused
    && (Closing(s).Closed? ==> forall i | 0 <= i < |s.threads| :: !Underway(s.threads[i]))
  }

  predicate MaySleep(g: Shared, t: Thread)
  {
    && (t == Command(Asleep(false)) ==> g.open && !g.lost && !g.replyValid)
    && (t == Popper(Sleeping(false)) ==> g.open && !g.lost && !g.queued)
  }

  /** No wake-up is lost: a thread sleeps unsignaled only while it has something to wait for. */
  ghost predicate WakeInv(s: State)
  {
    forall i | 0 <= i < |s.threads| :: MaySleep(s.g, s.threads[i])
  }

  ghost predicate Inv(s: State)
  {
    LockInv(s) && CloserInv(s) && UseInv(s) && WakeInv(s)
  }

  // ---- one step keeps it ----

  /** The threads after thread `i` moved. */
  function Moved(threads: seq<Thread>, i: nat, m: Move): seq<Thread>
    requires i < |threads|
  {
    SignalAll(threads, m.wake)[i := m.t]
  }

  lemma MoveKeepsLock(s: State, i: nat, m: Move)
    requires LockInv(s) && i < |s.threads|
    requires if HoldsLock(s.threads[i]) == HoldsLock(m.t) then m.g.cmdLock == s.g.cmdLock
             else if HoldsLock(m.t) then s.g.cmdLock.Nobody? && m.g.cmdLock == Held(i)
             else m.g.cmdLock.Nobody?
    ensures LockInv(State(m.g, Moved(s.threads, i, m)))
  {
    var now := Moved(s.threads, i, m);
    assert HoldsLock(s.threads[i]) ==> s.g.cmdLock == Held(i);
    forall j | 0 <= j < |now| && HoldsLock(now[j]) ensures m.g.cmdLock == Held(j) {
      assert j != i ==> HoldsLock(s.threads[j]);
    }
  }

  lemma SignalKeepsLock(s: State, g: Shared, w: Wake)
    requires LockInv(s) && g.cmdLock == s.g.cmdLock
    ensures LockInv(State(g, SignalAll(s.threads, w)))
  {
    var now := SignalAll(s.threads, w);
    forall j | 0 <= j < |now| && HoldsLock(now[j]) ensures g.cmdLock == Held(j) {
      assert HoldsLock(s.threads[j]);
    }
  }

  lemma MoveTakesLock(s: State, step: Step)
    requires IsThreadStep(step) && Enabled(s, step)
    ensures var was, m := s.threads[step.i], MoveOf(s, step);
            if HoldsLock(was) == HoldsLock(m.t) then m.g.cmdLock == s.g.cmdLock
            else if HoldsLock(m.t) then s.g.cmdLock.Nobody? && m.g.cmdLock == Held(step.i)
            else m.g.cmdLock.Nobody?
  {
  }

  lemma KeepsLock(s: State, step: Step)
    requires LockInv(s) && Enabled(s, step)
    ensures LockInv(Apply(s, step))
  {
    hide LockInv, MoveOf;
    if IsThreadStep(step) {
      MoveTakesLock(s, step);
      MoveKeepsLock(s, step.i, MoveOf(s, step));
    } else {
      SignalKeepsLock(s, ReaderMove(s.g, step).0, ReaderMove(s.g, step).1);
    }
  }

  /** A thread's own move puts it to sleep only with reason, and takes no one else's reason away
      without a broadcast. */
  predicate SleepsSafely(g: Shared, m: Move)
  {
    && MaySleep(m.g, m.t) && m.g.lost == g.lost && (m.g.open == g.open || m.wake == WAKE_ALL)
    && (m.g.replyValid ==> g.replyValid) && (m.g.queued ==> g.queued)
  }

  lemma CommandSleepsSafely(g: Shared, i: nat, at: CommandAt)
    ensures SleepsSafely(g, CommandMove(g, i, at))
  {
  }

  lemma CloserSleepsSafely(g: Shared, i: nat, at: CloseAt)
    ensures SleepsSafely(g, CloserMove(g, i, at))
  {
  }

  lemma PopperSleepsSafely(g: Shared, more: bool, timedOut: bool)
    ensures SleepsSafely(g, PopperMove(g, more, timedOut))
  {
  }

  lemma MoveSleepsSafely(s: State, step: Step)
    requires IsThreadStep(step) && Enabled(s, step)
    ensures SleepsSafely(s.g, MoveOf(s, step))
  {
    hide CommandMove, CloserMove, PopperMove;
    match step
    case Advance(i, more) =>
      hide SleepsSafely;
      match s.threads[i] {
        case Command(at) => CommandSleepsSafely(s.g, i, at);
        case Closer(at) => CloserSleepsSafely(s.g, i, at);
        case Popper(_) => PopperSleepsSafely(s.g, more, false);
      }
    case WriteEnds(_) =>
    case TimesOut(_, more) => PopperSleepsSafely(s.g, more, true);
    case _ =>
  }

  lemma KeepsWake(s: State, step: Step)
    requires WakeInv(s) && Enabled(s, step)
    ensures WakeInv(Apply(s, step))
  {
    hide MoveOf;
    if IsThreadStep(step) {
      MoveSleepsSafely(s, step);
    }
  }

  lemma CloserMoves(s: State, step: Step)
    requires IsThreadStep(step) && Enabled(s, step) && CloserInv(s) && s.g.closer == Held(step.i)
    ensures var m := MoveOf(s, step);
            m.g.closer == s.g.closer && m.t.Closer? && !m.t.close.Enter? && CloserAgrees(m.g, m.t.close)
  {
  }

  lemma CommandsDoNotClose(g: Shared, i: nat, at: CommandAt)
    ensures var m := CommandMove(g, i, at);
            && m.t.Command?
            && m.g == g.(cmdLock := m.g.cmdLock, replyValid := m.g.replyValid, misused := m.g.misused)
  {
  }

  /** Another thread either leaves the closing to the closer, or becomes it. */
  lemma OtherMoves(s: State, step: Step)
    requires IsThreadStep(step) && Enabled(s, step) && CloserInv(s) && s.g.closer != Held(step.i)
    ensures var was, m := s.threads[step.i], MoveOf(s, step);
            || (m.g.closer == s.g.closer && CloserAgrees(m.g, Closing(s))
                && (m.t.Closer? ==> was.Closer? && (m.t.close.Enter? || m.t.close.Closed?)))
            || (s.g.closer.Nobody? && m.g.closer == Held(step.i) && m.t == Closer(WantLock) && CloserAgrees(m.g, WantLock))
  {
    hide CommandMove;
    if s.threads[step.i].Command? && step.Advance? {
      CommandsDoNotClose(s.g, step.i, s.threads[step.i].cmd);
    }
  }

  lemma KeepsCloser(s: State, step: Step)
    requires CloserInv(s) && Enabled(s, step)
    ensures CloserInv(Apply(s, step))
  {
    hide MoveOf, CloserAgrees;
    var s' := Apply(s, step);
    if IsThreadStep(step) {
      if s.g.closer == Held(step.i) { CloserMoves(s, step); } else { OtherMoves(s, step); }
    } else {
      ReaderAndCloser(s, step);
    }
    forall i | 0 <= i < |s'.threads| && s'.threads[i].Closer? && s'.g.closer != Held(i)
      ensures s'.threads[i].close.Enter? || s'.threads[i].close.Closed?
    {
      assert !IsThreadStep(step) || i != step.i ==> s.threads[i].Closer? && s.threads[i].close == s'.threads[i].close;
    }
  }

  lemma ReaderAndCloser(s: State, step: Step)
    requires !IsThreadStep(step) && Enabled(s, step) && CloserInv(s)
    ensures var g := ReaderMove(s.g, step).0;
            g.closer == s.g.closer && CloserAgrees(g, Closing(s))
  {
  }

  /** A thread about to use the transport finds it open. */
  lemma UsersFindItOpen(s: State, i: nat)
    requires LockInv(s) && CloserInv(s) && UseInv(s) && i < |s.threads|
    requires Underway(s.threads[i]) || s.threads[i] == Closer(ClosingTransport)
    ensures s.g.transportOpen
  {
    if s.g.closer.Held? {
      var k := s.g.closer.who;
      assert HoldsLock(s.threads[k]) && HoldsLock(s.threads[i]) ==> i == k;
    }
  }

  /** While the closing thread has cmd_lock no command is underway, so none is when it lets go. */
  lemma NoneUnderway(s: State, i: nat)
    requires LockInv(s) && i < |s.threads| && HoldsLock(s.threads[i]) && s.threads[i].Closer?
    ensures forall j | 0 <= j < |s.threads| :: !Underway(s.threads[j])
  {
    forall j | 0 <= j < |s.threads| ensures !Underway(s.threads[j]) {
      assert HoldsLock(s.threads[j]) ==> j == i;
    }
  }

  lemma MoveAndUse(s: State, step: Step)
    requires IsThreadStep(step) && Enabled(s, step) && LockInv(s) && CloserInv(s) && UseInv(s)
    ensures var was, m := s.threads[step.i], MoveOf(s, step);
            && !m.g.misused
            && (Underway(m.t) && !Underway(was) ==> s.g.open)
            && (m.t == Closer(Closed) && was != m.t ==> !s.g.open && (HoldsLock(was) || was == Closer(Enter)))
  {
    if Underway(s.threads[step.i]) || s.threads[step.i] == Closer(ClosingTransport) {
      UsersFindItOpen(s, step.i);
    }
  }

  lemma KeepsUse(s: State, step: Step)
    requires LockInv(s) && CloserInv(s) && UseInv(s) && Enabled(s, step)
    ensures UseInv(Apply(s, step))
  {
    hide MoveOf;
    var s' := Apply(s, step);
    KeepsCloser(s, step);
    if IsThreadStep(step) {
      if s.g.closer == Held(step.i) { CloserMoves(s, step); } else { OtherMoves(s, step); }
      MoveAndUse(s, step);
      var i := step.i;
      if HoldsLock(s.threads[i]) && s.threads[i].Closer? { NoneUnderway(s, i); }
      assert forall j | 0 <= j < |s.threads| && j != i :: Underway(s'.threads[j]) ==> Underway(s.threads[j]);
    } else {
      assert forall j | 0 <= j < |s.threads| :: Underway(s'.threads[j]) ==> Underway(s.threads[j]);
    }
  }

  // ---- every run ----

  ghost predicate CanRun(s: State, steps: seq<Step>)
    decreases |steps|
  {
    steps == [] || (Enabled(s, steps[0]) && CanRun(Apply(s, steps[0]), steps[1..]))
  }

  ghost function Run(s: State, steps: seq<Step>): State
    requires CanRun(s, steps)
    decreases |steps|
  {
    if steps == [] then s else Run(Apply(s, steps[0]), steps[1..])
  }

  lemma {:induction false} RunKeepsInv(s: State, steps: seq<Step>)
    requires Inv(s) && CanRun(s, steps)
    ensures Inv(Run(s, steps))
    decreases |steps|
  {
    hide LockInv, CloserInv, UseInv, WakeInv, Apply, Enabled;
    if steps != [] {
      KeepsLock(s, steps[0]);
      KeepsCloser(s, steps[0]);
      KeepsUse(s, steps[0]);
      KeepsWake(s, steps[0]);
      RunKeepsInv(Apply(s, steps[0]), steps[1..]);
    }
  }

  /** In every interleaving of any number of commands, receivers and closers with the reader: the
      transport is never used after its close, and it is closed at most once. */
  lemma SafeTeardown(s: State, steps: seq<Step>)
    requires IsStart(s) && CanRun(s, steps)
    ensures var end := Run(s, steps);
            Inv(end) && !end.g.misused && end.g.closes <= 1 && (end.g.closes == 1 <==> !end.g.transportOpen)
  {
    RunKeepsInv(s, steps);
  }

  // ---- a pending close completes ----

  /** A thread has closed the device and is on its way through op_device_close. */
  predicate Pending(s: State)
  {
    !Closing(s).Enter? && !Closing(s).Closed?
  }

  /** How many steps a thread has left once the device is closed. */
  function Rank(t: Thread): nat
  {
    match t
    case Command(Start) => 7
    case Command(Locked) => 6
    case Command(Claiming) => 5
    case Command(InWrite) => 4
    case Command(Asleep(_)) => 3
    case Command(Checking) => 2
    case Command(Leaving) => 1
    case Command(Done) => 0
    case Closer(Enter) => 6
    case Closer(WantLock) => 5
    case Closer(Stopping) => 4
    case Closer(Joining) => 3
    case Closer(ClosingTransport) => 2
    case Closer(Unlocking) => 1
    case Closer(Closed) => 0
    case Popper(Sleeping(_)) => 2
    case Popper(Look) => 1
    case Popper(Popped) => 0
  }

  /** And the reader, once told to stop. */
  function ReaderRank(g: Shared): nat
  {
    if !g.stop then 5
    else match g.reader case InRead => 4 case Handling => 3 case Losing => 2 case Top => 1 case Exited => 0
  }

  function Total(threads: seq<Thread>): nat
  {
    if threads == [] then 0 else Rank(threads[0]) + Total(threads[1..])
  }

  function Left(s: State): nat { Total(s.threads) + ReaderRank(s.g) }

  lemma {:induction false} TotalUpdate(threads: seq<Thread>, i: nat, t: Thread)
    requires i < |threads|
    ensures Total(threads[i := t]) == Total(threads) - Rank(threads[i]) + Rank(t)
  {
    if i > 0 {
      TotalUpdate(threads[1..], i - 1, t);
      assert threads[i := t][1..] == threads[1..][i - 1 := t];
    } else {
      assert threads[0 := t][1..] == threads[1..];
    }
  }

  lemma {:induction false} TotalSignaled(threads: seq<Thread>, w: Wake)
    ensures Total(SignalAll(threads, w)) == Total(threads)
  {
    if threads != [] {
      TotalSignaled(threads[1..], w);
      assert SignalAll(threads, w)[1..] == SignalAll(threads[1..], w);
    }
  }

  lemma NothingSignaled(threads: seq<Thread>)
    ensures SignalAll(threads, NO_WAKE) == threads
  {
  }

  lemma ClosedCommandDescends(g: Shared, i: nat, at: CommandAt)
    requires !g.open && !at.Done?
    ensures var m := CommandMove(g, i, at);
            Rank(m.t) < Rank(Command(at)) && m.wake == NO_WAKE && ReaderRank(m.g) == ReaderRank(g)
  {
  }

  lemma ClosedMoveDescends(s: State, step: Step)
    requires IsThreadStep(step) && Enabled(s, step) && !s.g.open
    ensures var m := MoveOf(s, step);
            Rank(m.t) < Rank(s.threads[step.i]) && m.wake == NO_WAKE && ReaderRank(m.g) <= ReaderRank(s.g)
  {
    hide CommandMove;
    if s.threads[step.i].Command? && step.Advance? {
      ClosedCommandDescends(s.g, step.i, s.threads[step.i].cmd);
    }
  }

  /** While a close is pending no step of anyone takes it further from its end: every step of a thread
      brings it nearer, and so does every step of the reader once it has been told to stop. */
  lemma StepsDescend(s: State, step: Step)
    requires Inv(s) && Pending(s) && Enabled(s, step)
    ensures Left(Apply(s, step)) <= Left(s)
    ensures IsThreadStep(step) || s.g.stop ==> Left(Apply(s, step)) < Left(s)
  {
    hide MoveOf, Rank;
    if IsThreadStep(step) {
      ClosedMoveDescends(s, step);
      NothingSignaled(s.threads);
      TotalUpdate(s.threads, step.i, MoveOf(s, step).t);
    } else {
      TotalSignaled(s.threads, ReaderMove(s.g, step).1);
    }
  }

  /** A step that is possible now and brings the pending close nearer to its end. */
  function Helpful(s: State): Step
  {
    if Closing(s).WantLock? && s.g.cmdLock.Held? then Advance(s.g.cmdLock.who, false)
    else if Closing(s).Joining? && !s.g.reader.Exited? then
      (if s.g.reader.InRead? then ReadReturns(Nothing) else ReaderAdvances(false, false))
    else if s.g.closer.Held? then Advance(s.g.closer.who, false) else Advance(0, false)
  }

  lemma HelpIsPossible(s: State)
    requires Inv(s) && Pending(s)
    ensures Enabled(s, Helpful(s)) && Left(Apply(s, Helpful(s))) < Left(s)
  {
    hide Left;
    var k := s.g.closer.who;
    if Closing(s).WantLock? && s.g.cmdLock.Held? {
      var i := s.g.cmdLock.who;
      assert MaySleep(s.g, s.threads[i]);
      assert s.threads[i].Closer? ==> i == k;
    } else if !Closing(s).WantLock? {
      assert HoldsLock(s.threads[k]);
    }
    StepsDescend(s, Helpful(s));
  }

  /** No deadlock: from every state a run can reach with a close pending, a run of at most Left(s)
      further steps completes the close. */
  lemma {:induction false} CloseCompletes(s: State) returns (steps: seq<Step>)
    requires Inv(s) && Pending(s)
    ensures CanRun(s, steps) && |steps| <= Left(s)
    ensures var end := Run(s, steps);
            Closing(end).Closed? && end.g.closes == 1 && !end.g.transportOpen && !end.g.misused && end.g.closer == s.g.closer
    decreases Left(s)
  {
    hide LockInv, UseInv, WakeInv, Apply, Left, Enabled;
    var step := Helpful(s);
    HelpIsPossible(s);
    var s' := Apply(s, step);
    KeepsLock(s, step);
    KeepsCloser(s, step);
    KeepsUse(s, step);
    KeepsWake(s, step);
    CloserStays(s, step);
    if Pending(s') {
      var more := CloseCompletes(s');
      steps := [step] + more;
      assert steps[1..] == more;
    } else {
      steps := [step];
      assert CanRun(s', steps[1..]);
    }
  }

  lemma CloserStays(s: State, step: Step)
    requires Inv(s) && Pending(s) && Enabled(s, step)
    ensures Apply(s, step).g.closer == s.g.closer && !Closing(Apply(s, step)).Enter? && !Apply(s, step).g.misused
  {
    hide MoveOf, CloserAgrees;
    KeepsUse(s, step);
    if IsThreadStep(step) {
      if s.g.closer == Held(step.i) { CloserMoves(s, step); } else { OtherMoves(s, step); }
    }
  }
}
