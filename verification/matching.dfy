/** Command transactions over a link that loses, delays and repeats replies: no command returns
    another command's answer. One command is in flight at a time, as cmd_lock has it. */
module Matching {
  import opened Bytes
  import opened Proto
  import opened Slots

  // ---- sequence numbers ----

  /** How many numbers there are before they come round again. */
  const PERIOD: nat := 0x1_0000_0000 - 256

  /** `seq_next++`, kept above every key byte across the 32-bit wrap. */
  function NextSeq(n: u32): (m: u32)
    requires n >= SEQ_FIRST
    ensures m >= SEQ_FIRST
  {
    var m := (n + 1) % 0x1_0000_0000;
    if m < SEQ_FIRST then SEQ_FIRST else m
  }

  /** The k-th number issued in a session that started at `start`. */
  function Nth(start: u32, k: nat): (n: u32)
    requires start >= SEQ_FIRST
    ensures n >= SEQ_FIRST
  {
    if k == 0 then start else NextSeq(Nth(start, k - 1))
  }

  lemma NextIs(n: u32)
    requires n >= SEQ_FIRST
    ensures NextSeq(n) == if n == U32_MAX then SEQ_FIRST else n + 1
  {
  }

  lemma {:induction false} NthInClosedForm(start: u32, k: nat)
    requires start >= SEQ_FIRST
    ensures Nth(start, k) == SEQ_FIRST + (start - SEQ_FIRST + k) % PERIOD
  {
    hide NextSeq;
    if k > 0 {
      NthInClosedForm(start, k - 1);
      NextIs(Nth(start, k - 1));
      SuccessorMod(start - SEQ_FIRST + k - 1);
    } else {
      assert (start - SEQ_FIRST) % PERIOD == start - SEQ_FIRST;
    }
  }

  lemma SuccessorMod(x: nat)
    ensures (x + 1) % PERIOD == if x % PERIOD == PERIOD - 1 then 0 else x % PERIOD + 1
  {
  }

  /** Two numbers of a session are equal exactly when a multiple of 2^32 - 256 lies between them. */
  lemma NumbersRepeat(start: u32, i: nat, j: nat)
    requires start >= SEQ_FIRST && i <= j
    ensures Nth(start, i) == Nth(start, j) <==> (j - i) % PERIOD == 0
  {
    NthInClosedForm(start, i);
    NthInClosedForm(start, j);
    var x := start - SEQ_FIRST + i;
    CongruentIff(x, x + (j - i));
  }

  lemma CongruentIff(x: nat, y: nat)
    requires x <= y
    ensures x % PERIOD == y % PERIOD <==> (y - x) % PERIOD == 0
  {
    var d := y - x;
    assert y == (x / PERIOD + d / PERIOD) * PERIOD + (x % PERIOD + d % PERIOD);
  }

  /** So every number differs from the 2^32 - 257 before it. */
  lemma NumbersDistinct(start: u32, i: nat, j: nat)
    requires start >= SEQ_FIRST && i < j < i + PERIOD
    ensures Nth(start, i) != Nth(start, j)
  {
    NumbersRepeat(start, i, j);
  }

  // ---- transactions ----

  /** A command: its verb letter, its number (0 for `ati`), and which number of the session it is. */
  datatype Cmd = Cmd(verb: byte, number: u32, k: nat)

  /** A reply and the command the device made it for. */
  datatype Answered = Answered(cmd: nat, reply: Reply)

  /** What a command returned, the reply behind it, and whether its raw bytes were only borrowed. */
  datatype Result = Result(cmd: nat, answer: Answered, reply: Reply, borrowed: bool)

  datatype Phase = Idle | Writing | Waiting

  /** `count` numbers have been issued. `answers` is everything the device ever sent: a reply in it
      may be delivered late, many times or never. `last` is what the slot last took. */
  datatype State = State(start: u32, count: nat, issued: seq<Cmd>, phase: Phase, slot: Slot,
                         answers: set<Answered>, last: Answered, results: seq<Result>)
  {
    function Current(): nat requires issued != [] { |issued| - 1 }
  }

  datatype Step =
    | Issue(verb: byte, wait: bool)
    | WriteDone
    | WriteFails
    | Answer(answer: Answered)
    | Deliver(delivered: Answered)
    | Return
    | GiveUp

  /** What the cable answers a command with: an init reply to an init only, with at most 255 raw bytes,
      and any text reply ends in the command's number or in a token too small to be one. */
  predicate AnswersTo(c: Cmd, r: Reply)
  {
    && (r.Init? ==> (c.verb == 'y' as int || c.verb == 'w' as int) && |r.data| <= DATA_MAX)
    && (r.Tail() != [] ==> Last(r.Tail()) == c.number || Last(r.Tail()) < SEQ_FIRST)
  }

  /** No reply is held back for as long as the numbers take to come round. */
  predicate InWindow(s: State, a: Answered)
    requires a.cmd < |s.issued|
  {
    s.count <= s.issued[a.cmd].k + PERIOD
  }

  predicate Enabled(s: State, step: Step)
  {
    match step
    case Issue(_, _) => s.phase.Idle?
    case WriteDone => s.phase.Writing?
    case WriteFails => s.phase.Writing?
    case Answer(a) => a.cmd < |s.issued| && AnswersTo(s.issued[a.cmd], a.reply)
    case Deliver(a) => a in s.answers && a.cmd < |s.issued| && InWindow(s, a)
    case Return => s.phase.Waiting? && s.slot.valid
    case GiveUp => s.phase.Waiting? && !s.slot.valid
  }

  function Apply(s: State, step: Step): State
    requires s.start >= SEQ_FIRST && Enabled(s, step)
  {
    match step
    case Issue(verb, wait) =>
      var numbered := verb != 'i' as int;
      var number := if numbered then Nth(s.start, s.count) else 0;
      s.(issued := s.issued + [Cmd(verb, number, s.count)], count := if numbered then s.count + 1 else s.count,
         slot := Slot(wait, false, number, verb, s.slot.reply, s.slot.borrowed), phase := if wait then Writing else Idle)
    case WriteDone => s.(phase := Waiting)
    case WriteFails => s.(phase := Idle, slot := s.slot.(waiting := false))
    case Answer(a) => s.(answers := s.answers + {a})
    case Deliver(a) =>
      var slot := Stash(s.slot, a.reply);
      s.(slot := slot, last := if slot == s.slot then s.last else a)
    case Return =>
      var cmd := if s.issued == [] then 0 else s.Current();
      s.(phase := Idle, slot := s.slot.(waiting := false, valid := false),
         results := s.results + [Result(cmd, s.last, s.slot.reply, s.slot.borrowed)])
    case GiveUp => s.(phase := Idle, slot := s.slot.(waiting := false))
  }

  predicate IsSession(s: State)
  {
    && s.start >= SEQ_FIRST && s.count == 0 && s.issued == [] && s.phase.Idle? && !s.slot.waiting
    && s.answers == {} && s.results == []
  }

  /** A command whose reply is matched by number alone. */
  predicate ByNumber(c: Cmd)
  {
    c.number != 0 && c.verb != 'y' as int && c.verb != 'w' as int
  }

  /** The same, or any numbered command where init replies come in order. */
  predicate Matched(c: Cmd, ordered: bool)
  {
    ByNumber(c) || (ordered && c.number != 0)
  }

  /** No init reply of another command comes while an init waits. */
  predicate InOrder(s: State, step: Step)
  {
    step.Deliver? && step.delivered.reply.Init? && s.slot.waiting && s.slot.AwaitsInit() && s.issued != []
    ==> step.delivered.cmd == s.Current()
  }

  /** The device made `answer` for the command, and `reply` is that answer as it came. */
  ghost predicate Genuine(s: State, cmd: nat, answer: Answered, reply: Reply)
    requires cmd < |s.issued|
  {
    answer in s.answers && answer.cmd == cmd && HandsOn(s.issued[cmd].number, answer.reply, reply)
  }

  /** The answer was made for the command, and the reply is what it leaves in the slot. */
  predicate Made(s: State, cmd: nat, answer: Answered, reply: Reply, borrowed: bool)
    requires cmd < |s.issued|
  {
    answer in s.answers && answer.cmd == cmd && (reply, borrowed) == Left(s.issued[cmd].number, answer.reply)
  }

  ghost predicate Numbered(s: State)
  {
    && s.start >= SEQ_FIRST
    && (forall i | 0 <= i < |s.issued| ::
          s.issued[i].k <= s.count
          && (s.issued[i].number != 0 ==> s.issued[i].k < s.count && s.issued[i].number == Nth(s.start, s.issued[i].k)))
    && (forall i, j | 0 <= i < j < |s.issued| ::
          s.issued[i].number != 0 && s.issued[j].number != 0 ==> s.issued[i].k < s.issued[j].k)
  }

  ghost predicate Inv(s: State, ordered: bool)
  {
    && Numbered(s)
    && (forall a <- s.answers :: a.cmd < |s.issued| && AnswersTo(s.issued[a.cmd], a.reply))
    && (s.phase.Idle? ==> !s.slot.waiting)
    && (!s.phase.Idle? ==>
          && s.issued != [] && s.slot.waiting
          && s.slot.pending == s.issued[s.Current()].number && s.slot.verb == s.issued[s.Current()].verb
          && (s.slot.pending != 0 ==> s.issued[s.Current()].k + 1 == s.count)
          && (s.slot.valid && Matched(s.issued[s.Current()], ordered) ==> Made(s, s.Current(), s.last, s.slot.reply, s.slot.borrowed)))
    && (forall i | 0 <= i < |s.results| ::
          s.results[i].cmd < |s.issued|
          && (Matched(s.issued[s.results[i].cmd], ordered) ==>
                Made(s, s.results[i].cmd, s.results[i].answer, s.results[i].reply, s.results[i].borrowed)))
  }

  /** A delivered reply that ends in the current command's number was made for it. */
  lemma NumberIdentifies(s: State, a: Answered, ordered: bool)
    requires Inv(s, ordered) && !s.phase.Idle? && a in s.answers && InWindow(s, a)
    requires s.slot.pending != 0 && a.reply.Tail() != [] && Last(a.reply.Tail()) == s.slot.pending
    ensures a.cmd == s.Current()
  {
    hide Nth;
    var cur := s.Current();
    var i, j := s.issued[a.cmd].k, s.issued[cur].k;
    assert s.issued[a.cmd].number == s.slot.pending;
    if i < j { NumbersDistinct(s.start, i, j); }
  }

  /** What the slot takes for a command whose replies are matched was made for that command. */
  lemma TakenIsMade(s: State, a: Answered, ordered: bool)
    requires Inv(s, ordered) && Enabled(s, Deliver(a)) && (ordered ==> InOrder(s, Deliver(a)))
    requires !s.phase.Idle? && Matched(s.issued[s.Current()], ordered) && Stash(s.slot, a.reply) != s.slot
    ensures var after := Stash(s.slot, a.reply);
            Made(s, s.Current(), a, after.reply, after.borrowed)
  {
    hide Nth, Left;
    if !a.reply.Init? { NumberIdentifies(s, a, ordered); }
  }

  lemma StepKeepsInv(s: State, step: Step, ordered: bool)
    requires Inv(s, ordered) && Enabled(s, step) && (ordered ==> InOrder(s, step))
    ensures Inv(Apply(s, step), ordered)
  {
    hide Nth, Left, LateDiscard, Stale;
    var s' := Apply(s, step);
    match step
    case Issue(verb, _) => IssueKeepsNumbers(s, step, ordered);
    case Deliver(a) =>
      if s'.slot != s.slot && s'.slot.valid && Matched(s.issued[s.Current()], ordered) {
        TakenIsMade(s, a, ordered);
      }
    case _ =>
  }

  lemma IssueKeepsNumbers(s: State, step: Step, ordered: bool)
    requires Inv(s, ordered) && step.Issue? && Enabled(s, step)
    ensures Numbered(Apply(s, step))
  {
    hide Nth;
    var s' := Apply(s, step);
    forall i, j | 0 <= i < j < |s'.issued| && s'.issued[i].number != 0 && s'.issued[j].number != 0
      ensures s'.issued[i].k < s'.issued[j].k
    {
      assert i < |s.issued| && s'.issued[i] == s.issued[i];
    }
  }

  ghost predicate CanRun(s: State, steps: seq<Step>)
    decreases |steps|
  {
    steps == [] || (s.start >= SEQ_FIRST && Enabled(s, steps[0]) && CanRun(Apply(s, steps[0]), steps[1..]))
  }

  ghost function Run(s: State, steps: seq<Step>): State
    requires CanRun(s, steps)
    decreases |steps|
  {
    if steps == [] then s else Run(Apply(s, steps[0]), steps[1..])
  }

  /** No init reply of another command comes while an init waits, all through the run. */
  ghost predicate OrderedRun(s: State, steps: seq<Step>)
    requires CanRun(s, steps)
    decreases |steps|
  {
    steps == [] || (InOrder(s, steps[0]) && OrderedRun(Apply(s, steps[0]), steps[1..]))
  }

  lemma {:induction false} RunKeepsInv(s: State, steps: seq<Step>, ordered: bool)
    requires Inv(s, ordered) && CanRun(s, steps) && (ordered ==> OrderedRun(s, steps))
    ensures Inv(Run(s, steps), ordered)
    decreases |steps|
  {
    hide Inv, Apply, Enabled, InOrder;
    if steps != [] {
      StepKeepsInv(s, steps[0], ordered);
      RunKeepsInv(Apply(s, steps[0]), steps[1..], ordered);
    }
  }

  /** Over every run, with replies lost, repeated and delayed past their commands' timeouts: whatever
      a numbered command other than an init returns was made by the device for that command. */
  lemma NoForeignReplies(s: State, steps: seq<Step>, i: nat)
    requires IsSession(s) && CanRun(s, steps) && i < |Run(s, steps).results|
    ensures var end := Run(s, steps);
            var got := end.results[i];
            && got.cmd < |end.issued|
            && (ByNumber(end.issued[got.cmd]) ==> Genuine(end, got.cmd, got.answer, got.reply))
  {
    hide Run, CanRun, IsSession, HandsOn;
    SessionBegins(s);
    RunKeepsInv(s, steps, false);
    var end := Run(s, steps);
    var got := end.results[i];
    ResultIsMade(end, i, false);
    MadeIsGenuine(end, got.cmd, got.answer, got.reply, got.borrowed);
  }

  /** As long as no other command's init reply comes while an init waits, what any numbered command returns
      comes from a reply made for it; and it is that reply unless this was given up late, which is exactly
      when its bytes are only borrowed. */
  lemma OrderedInitsAreGenuine(s: State, steps: seq<Step>, i: nat)
    requires IsSession(s) && CanRun(s, steps) && OrderedRun(s, steps) && i < |Run(s, steps).results|
    ensures var end := Run(s, steps);
            var got := end.results[i];
            && got.cmd < |end.issued|
            && var number := end.issued[got.cmd].number;
               number != 0 ==>
                 && got.answer in end.answers && got.answer.cmd == got.cmd
                 && (got.borrowed <==> Late(number, got.answer.reply))
                 && (if got.borrowed then got.reply == got.answer.reply else Genuine(end, got.cmd, got.answer, got.reply))
  {
    hide Run, CanRun, OrderedRun, IsSession, HandsOn;
    SessionBegins(s);
    RunKeepsInv(s, steps, true);
    var end := Run(s, steps);
    var got := end.results[i];
    ResultIsMade(end, i, true);
    MadeIsGenuine(end, got.cmd, got.answer, got.reply, got.borrowed);
  }

  lemma SessionBegins(s: State)
    requires IsSession(s)
    ensures Inv(s, true) && Inv(s, false)
  {
  }

  lemma ResultIsMade(s: State, i: nat, ordered: bool)
    requires Inv(s, ordered) && i < |s.results|
    ensures var got := s.results[i];
            && got.cmd < |s.issued|
            && (Matched(s.issued[got.cmd], ordered) ==>
                  Made(s, got.cmd, got.answer, got.reply, got.borrowed) && AnswersTo(s.issued[got.cmd], got.answer.reply))
  {
  }

  /** A command's own answer, not given up late, is kept whole. */
  lemma MadeIsGenuine(s: State, cmd: nat, answer: Answered, reply: Reply, borrowed: bool)
    requires cmd < |s.issued|
    ensures Made(s, cmd, answer, reply, borrowed) && AnswersTo(s.issued[cmd], answer.reply) ==>
              && (borrowed <==> Late(s.issued[cmd].number, answer.reply))
              && (if borrowed then reply == answer.reply else Genuine(s, cmd, answer, reply))
  {
    hide HandsOn, Kept;
    KeptHandsOn(s.issued[cmd].number, answer.reply);
  }

  /** Where in addition every init answer with raw bytes carries no token or its own number, no bytes are
      borrowed, and every numbered command returns its own reply. */
  lemma NumberedInitsAreGenuine(s: State, steps: seq<Step>, i: nat)
    requires IsSession(s) && CanRun(s, steps) && OrderedRun(s, steps) && i < |Run(s, steps).results|
    requires var end := Run(s, steps);
             forall a <- end.answers :: a.cmd < |end.issued| && (a.reply.Init? && a.reply.data != [] && a.reply.tail != [] ==>
               Last(a.reply.tail) == end.issued[a.cmd].number)
    ensures var end := Run(s, steps);
            var got := end.results[i];
            && got.cmd < |end.issued|
            && (end.issued[got.cmd].number != 0 ==> !got.borrowed && Genuine(end, got.cmd, got.answer, got.reply))
  {
    hide Run, CanRun, OrderedRun, IsSession;
    OrderedInitsAreGenuine(s, steps, i);
    SessionBegins(s);
    RunKeepsInv(s, steps, true);
    ResultIsMade(Run(s, steps), i, true);
  }

  /** A session with these commands, slot, answers and results. */
  function Session(issued: seq<Cmd>, phase: Phase, slot: Slot, answers: set<Answered>, last: Answered, results: seq<Result>): State
  {
    State(256, |issued|, issued, phase, slot, answers, last, results)
  }

  const FIRST := Cmd('w' as int, 256, 0)
  const SECOND := Cmd('w' as int, 257, 1)
  const LATE := Answered(0, Init(3, 2, [], [1, 2]))
  const OWN := Answered(1, Init(3, 0, [8, 8, 257], []))

  function InitSlot(waiting: bool, valid: bool, number: u32, reply: Reply): Slot
  {
    Slot(waiting, valid, number, 'w' as int, reply, false)
  }

  lemma RunStep(s: State, steps: seq<Step>)
    requires steps != [] && s.start >= SEQ_FIRST && Enabled(s, steps[0]) && CanRun(Apply(s, steps[0]), steps[1..])
    ensures CanRun(s, steps) && Run(s, steps) == Run(Apply(s, steps[0]), steps[1..])
  {
  }

  lemma IssueInit(s: State, rest: seq<Step>)
    requires s.start == 256 && s.count <= 1 && s.phase.Idle? && !s.slot.borrowed
    requires var number := 256 + s.count;
             CanRun(s.(issued := s.issued + [Cmd('w' as int, number, s.count)], count := s.count + 1, phase := Writing,
                       slot := InitSlot(true, false, number, s.slot.reply)), rest)
    ensures var number := 256 + s.count;
            && CanRun(s, [Issue('w' as int, true)] + rest)
            && Run(s, [Issue('w' as int, true)] + rest)
            == Run(s.(issued := s.issued + [Cmd('w' as int, number, s.count)], count := s.count + 1, phase := Writing,
                      slot := InitSlot(true, false, number, s.slot.reply)), rest)
  {
    assert Nth(256, 0) == 256 && Nth(256, 1) == 257;
    var steps := [Issue('w' as int, true)] + rest;
    assert steps[1..] == rest;
    RunStep(s, steps);
  }

  /** The second init, its own answer delivered and then the late one. */
  lemma SecondInit(slot: Slot)
    requires slot == InitSlot(true, false, 257, Incomplete)
    ensures var steps := [Deliver(OWN), Deliver(LATE), Return];
            var s := Session([FIRST, SECOND], Waiting, slot, {LATE, OWN}, LATE, []);
            && CanRun(s, steps)
            && Run(s, steps) == Session([FIRST, SECOND], Idle, InitSlot(false, false, 257, LATE.reply), {LATE, OWN}, LATE,
                                        [Result(1, LATE, LATE.reply, false)])
  {
    var steps := [Deliver(OWN), Deliver(LATE), Return];
    var s := Session([FIRST, SECOND], Waiting, slot, {LATE, OWN}, LATE, []);
    var tail: seq<u32> := [8, 8, 257];
    var key: seq<u32> := [8, 8];
    assert tail[..2] == key && Last(tail) == 257;
    var bytes: seq<byte> := [8, 8];
    assert AsBytes(key) == bytes;
    assert KeyBytes(257, tail) == bytes;
    var raw: seq<byte> := [1, 2];
    assert raw[..2] == raw;
    var taken := InitSlot(true, true, 257, Init(3, 0, tail, bytes));
    assert Stash(slot, OWN.reply) == taken;
    var s1 := Session([FIRST, SECOND], Waiting, taken, {LATE, OWN}, OWN, []);
    var lost := InitSlot(true, true, 257, LATE.reply);
    assert Stash(taken, LATE.reply) == lost;
    var s2 := s1.(slot := lost, last := LATE);
    Consecutive(s, s1, s2, Apply(s2, Return), Deliver(OWN), Deliver(LATE), Return);
  }

  lemma Consecutive(s: State, s1: State, s2: State, s3: State, a: Step, b: Step, c: Step)
    requires s.start == s1.start == s2.start == 256
    requires Enabled(s, a) && Apply(s, a) == s1 && Enabled(s1, b) && Apply(s1, b) == s2 && Enabled(s2, c) && Apply(s2, c) == s3
    ensures CanRun(s, [a, b, c]) && Run(s, [a, b, c]) == s3
  {
    hide Apply, Enabled;
    assert [a, b, c][1..] == [b, c] && [b, c][1..] == [c] && [c][1..] == [];
    assert CanRun(s3, []) && Run(s3, []) == s3;
    RunStep(s2, [c]);
    RunStep(s1, [b, c]);
    RunStep(s, [a, b, c]);
  }

  /** Without the order it is false: the second of two inits is answered with its key bytes 8 and 8, and
      returns 1 and 2, the late unnumbered answer to the first. */
  lemma InitReturnsForeignReply() returns (s: State, steps: seq<Step>)
    ensures IsSession(s) && CanRun(s, steps)
    ensures var end := Run(s, steps);
            && |end.issued| == 2 && |end.results| == 1 && end.results[0].cmd == 1
            && end.results[0].answer.cmd == 0 && !end.results[0].borrowed && end.results[0].reply == Init(3, 2, [], [1, 2])
            && Answered(1, Init(3, 0, [8, 8, 257], [])) in end.answers
            && !Genuine(end, 1, end.results[0].answer, end.results[0].reply)
  {
    hide Apply, Enabled, CanRun, Run, Stash;
    s := Session([], Idle, Slot(false, false, 0, 0, Incomplete, false), {}, LATE, []);
    var answered := [Deliver(OWN), Deliver(LATE), Return];
    SecondInit(InitSlot(true, false, 257, Incomplete));
    var again := [WriteDone, Answer(OWN)] + answered;
    SecondWritten(answered);
    var retry := [Issue('w' as int, true)] + again;
    var s4 := Session([FIRST], Idle, InitSlot(false, false, 256, Incomplete), {LATE}, LATE, []);
    assert [FIRST] + [SECOND] == [FIRST, SECOND];
    IssueInit(s4, again);
    var first := [WriteDone, Answer(LATE), GiveUp] + retry;
    FirstGivenUp(retry);
    assert [] + [FIRST] == [FIRST];
    IssueInit(s, first);
    steps := [Issue('w' as int, true)] + first;
  }

  lemma SecondWritten(rest: seq<Step>)
    requires CanRun(Session([FIRST, SECOND], Waiting, InitSlot(true, false, 257, Incomplete), {LATE, OWN}, LATE, []), rest)
    ensures var s := Session([FIRST, SECOND], Writing, InitSlot(true, false, 257, Incomplete), {LATE}, LATE, []);
            && CanRun(s, [WriteDone, Answer(OWN)] + rest)
            && Run(s, [WriteDone, Answer(OWN)] + rest)
            == Run(Session([FIRST, SECOND], Waiting, InitSlot(true, false, 257, Incomplete), {LATE, OWN}, LATE, []), rest)
  {
    hide CanRun, Run;
    var s := Session([FIRST, SECOND], Writing, InitSlot(true, false, 257, Incomplete), {LATE}, LATE, []);
    var steps := [WriteDone, Answer(OWN)] + rest;
    assert steps[1..] == [Answer(OWN)] + rest && steps[1..][1..] == rest;
    assert {LATE} + {OWN} == {LATE, OWN};
    RunStep(Apply(s, WriteDone), steps[1..]);
    RunStep(s, steps);
  }

  lemma FirstGivenUp(rest: seq<Step>)
    requires CanRun(Session([FIRST], Idle, InitSlot(false, false, 256, Incomplete), {LATE}, LATE, []), rest)
    ensures var s := Session([FIRST], Writing, InitSlot(true, false, 256, Incomplete), {}, LATE, []);
            && CanRun(s, [WriteDone, Answer(LATE), GiveUp] + rest)
            && Run(s, [WriteDone, Answer(LATE), GiveUp] + rest)
            == Run(Session([FIRST], Idle, InitSlot(false, false, 256, Incomplete), {LATE}, LATE, []), rest)
  {
    hide CanRun, Run;
    var s := Session([FIRST], Writing, InitSlot(true, false, 256, Incomplete), {}, LATE, []);
    var steps := [WriteDone, Answer(LATE), GiveUp] + rest;
    assert steps[1..] == [Answer(LATE), GiveUp] + rest && steps[2..] == [GiveUp] + rest && steps[3..] == rest;
    var s1 := Apply(s, WriteDone);
    var s2 := Apply(s1, Answer(LATE));
    assert {} + {LATE} == {LATE};
    assert steps[1..][1..] == steps[2..] && steps[2..][1..] == rest;
    RunStep(s2, steps[2..]);
    RunStep(s1, steps[1..]);
    RunStep(s, steps);
  }

  /** How far the command under way gets: the index of the step that ends it. */
  function Ending(steps: seq<Step>): (k: nat)
    ensures k <= |steps|
  {
    if steps == [] || steps[0].Return? || steps[0].WriteFails? || steps[0].GiveUp? then 0 else 1 + Ending(steps[1..])
  }

  predicate Matches(r: Reply, number: u32)
  {
    !r.Init? && r.Tail() != [] && Last(r.Tail()) == number
  }

  /** Whether a waiting command lets a reply into the slot: one with its number, or any init reply if it is
      an init. */
  predicate Takes(slot: Slot, r: Reply)
  {
    Matches(r, slot.pending) || (r.Init? && slot.AwaitsInit())
  }

  /** The last reply among `r` and those delivered in `steps` that the command lets in. */
  function LastTaken(slot: Slot, r: Reply, steps: seq<Step>): Reply
    decreases |steps|
  {
    if steps == [] then r
    else LastTaken(slot, if steps[0].Deliver? && Takes(slot, steps[0].delivered.reply) then steps[0].delivered.reply else r,
                   steps[1..])
  }

  /** What becomes of a command that has a reply, `r` the last let in: until it ends it has the last one let in,
      and it ends by returning just that, as it came, unless its own write is still out and fails. */
  ghost predicate Returns(s: State, r: Reply, steps: seq<Step>)
    requires CanRun(s, steps) && s.issued != []
  {
    var k, end := Ending(steps), Run(s, steps);
    var last := LastTaken(s.slot, r, steps[..k]);
    if k == |steps| then
      !end.phase.Idle? && end.slot.valid && Leaves(s.slot.pending, last, end.slot.reply, end.slot.borrowed) && end.results == s.results
    else if steps[k].Return? then
      && |end.results| > |s.results|
      && var result := end.results[|s.results|];
         result.cmd == s.Current() && Leaves(s.slot.pending, last, result.reply, result.borrowed)
    else steps[k].WriteFails? && s.phase.Writing?
  }

  lemma DeliveryIsLast(slot: Slot, r: Reply, r': Reply)
    requires slot.waiting && slot.valid && slot.pending != 0 && (slot.reply, slot.borrowed) == Left(slot.pending, r)
    ensures var (reply, borrowed) := Left(slot.pending, if Takes(slot, r') then r' else r);
            Stash(slot, r') == slot.(reply := reply, borrowed := borrowed)
  {
    hide Left, Late;
  }

  /** The slot's number and verb stay while its command is under way. */
  lemma SameCommand(slot: Slot, now: Slot, r: Reply, steps: seq<Step>)
    requires slot.pending == now.pending && slot.verb == now.verb
    ensures LastTaken(slot, r, steps) == LastTaken(now, r, steps)
    decreases |steps|
  {
  }

  lemma {:induction false} StoredIsReturned(s: State, r: Reply, steps: seq<Step>)
    requires Inv(s, false) && !s.phase.Idle? && s.slot.valid && s.slot.pending != 0 && CanRun(s, steps)
    requires (s.slot.reply, s.slot.borrowed) == Left(s.slot.pending, r)
    ensures s.issued != [] && Returns(s, r, steps)
    decreases |steps|
  {
    hide Stash, Inv, Left, Takes, Leaves;
    InvWaits(s);
    LeftLeaves(s.slot.pending, r);
    if steps != [] {
      var s' := Apply(s, steps[0]);
      StepKeepsInv(s, steps[0], false);
      if steps[0].Return? {
        ResultsGrow(s', steps[1..]);
      } else if !steps[0].WriteFails? {
        var r' := if steps[0].Deliver? && Takes(s.slot, steps[0].delivered.reply) then steps[0].delivered.reply else r;
        if steps[0].Deliver? { DeliveryIsLast(s.slot, r, steps[0].delivered.reply); }
        StoredIsReturned(s', r', steps[1..]);
        var k := Ending(steps);
        assert steps[..k][0] == steps[0] && steps[..k][1..] == steps[1..][..k - 1];
        SameCommand(s.slot, s'.slot, r', steps[1..][..k - 1]);
      }
    }
  }

  /** A reply that a numbered command accepts between claiming the slot and giving up is never lost: the
      command returns it, or the last one let in after it. For a command other than an init these are the
      replies with its number, returned as they came; an init lets every init reply in. */
  lemma MatchedIsReturned(s: State, a: Answered, steps: seq<Step>)
    requires Inv(s, false) && !s.phase.Idle? && s.slot.pending != 0
    requires Enabled(s, Deliver(a)) && CanRun(Apply(s, Deliver(a)), steps)
    requires Takes(s.slot, a.reply) && (s.slot.valid || !LateDiscard(s.slot, a.reply))
    ensures Apply(s, Deliver(a)).issued != [] && Returns(Apply(s, Deliver(a)), a.reply, steps)
  {
    hide Run, CanRun, Left, Inv, LateDiscard, Leaves;
    InvWaits(s);
    StepKeepsInv(s, Deliver(a), false);
    StoredIsReturned(Apply(s, Deliver(a)), a.reply, steps);
  }

  lemma InvWaits(s: State)
    requires Inv(s, false) && !s.phase.Idle?
    ensures s.issued != [] && s.slot.waiting && s.start >= SEQ_FIRST
  {
  }

  lemma {:induction false} ResultsGrow(s: State, steps: seq<Step>)
    requires CanRun(s, steps)
    ensures s.results <= Run(s, steps).results
    decreases |steps|
  {
    hide Stash;
    if steps != [] { ResultsGrow(Apply(s, steps[0]), steps[1..]); }
  }

  /** The window is needed: a reply kept back for exactly one period carries the number of the
      command waiting now, and is accepted. */
  lemma OutOfWindowIsAccepted(s: State, a: Answered)
    requires Inv(s, false) && s.phase.Waiting? && !s.slot.valid && ByNumber(s.issued[s.Current()])
    requires a in s.answers && a.reply.Ok? && a.reply.tail != []
    requires Last(a.reply.tail) == s.issued[a.cmd].number != 0
    ensures Stash(s.slot, a.reply).valid <==> (s.issued[s.Current()].k - s.issued[a.cmd].k) % PERIOD == 0
  {
    hide Nth;
    var cur := s.Current();
    if a.cmd < cur {
      NumbersRepeat(s.start, s.issued[a.cmd].k, s.issued[cur].k);
    }
  }
}
