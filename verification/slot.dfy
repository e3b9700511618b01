/** The reply slot: which replies a waiting command accepts, and what it makes of them. */
module Slots {
  import opened Bytes
  import opened Proto
  import ReplyText

  /** reply_text without its terminator, and reply_data. */
  const TEXT_MAX: nat := 191
  const DATA_MAX: nat := 255
  /** Sequence numbers start above every key byte. */
  const SEQ_FIRST: u32 := 256

  /** The slot of op_device, guarded by its lock. `pending` is 0 for an unnumbered command. `borrowed` says
      that the reply's raw bytes were never copied out of the accumulator: the slot only points there, and
      whoever reads them finds what is there by then. */
  datatype Slot = Slot(waiting: bool, valid: bool, pending: u32, verb: byte, reply: Reply, borrowed: bool)
  {
    predicate AwaitsInit() { verb == 'y' as int || verb == 'w' as int }
  }

  function Last(tail: seq<u32>): u32
    requires tail != []
  {
    tail[|tail| - 1]
  }

  /** A reply from another command, or from none, as far as the slot can tell. */
  predicate Stale(s: Slot, r: Reply)
  {
    if r.Init? then !s.AwaitsInit()
    else s.pending != 0 && (r.Info? || r.Tail() == [] || Last(r.Tail()) != s.pending)
  }

  /** An init reply that the pending command gives up only after it was copied over the slot's reply: raw
      bytes behind another token than its number, or a token too large for a key byte. */
  predicate Late(pending: u32, r: Reply)
  {
    r.Init? && pending != 0 && r.tail != [] && Last(r.tail) != pending && (r.data != [] || Last(r.tail) > 0xFF)
  }

  predicate LateDiscard(s: Slot, r: Reply) { s.AwaitsInit() && Late(s.pending, r) }

  /** Tokens as bytes, nothing when one of them is not a byte. */
  function AsBytes(tokens: seq<u32>): seq<byte>
  {
    if forall k | 0 <= k < |tokens| :: tokens[k] <= 0xFF
    then seq(|tokens|, k requires 0 <= k < |tokens| => tokens[k]) else []
  }

  /** The key bytes of an `arw` reply: the number is stripped when it is there. */
  function KeyBytes(pending: u32, tail: seq<u32>): seq<byte>
  {
    AsBytes(if pending != 0 && tail != [] && Last(tail) == pending then tail[..|tail| - 1] else tail)
  }

  /** What is kept of an accepted reply. */
  function Kept(pending: u32, r: Reply): Reply
  {
    match r
    case Error(code, _, _, tail) =>
      if pending == 0 then r
      else Error(code, |tail| >= 2, if |tail| >= 2 then tail[0] else 0, tail)
    case Info(text) => Info(text[..Min(|text|, TEXT_MAX)])
    case Init(ch, a, tail, data) =>
      Init(ch, a, tail, if data != [] then data[..Min(|data|, DATA_MAX)] else KeyBytes(pending, tail))
    case _ => r
  }

  /** What a reply that gets past the first checks leaves in the slot, and whether its bytes are borrowed. */
  function Left(pending: u32, r: Reply): (Reply, bool)
  {
    if Late(pending, r) then (r, r.data != []) else (Kept(pending, r), false)
  }

  /** stash_reply. */
  function Stash(s: Slot, r: Reply): Slot
  {
    if !s.waiting || Stale(s, r) then s
    else
      var (reply, borrowed) := Left(s.pending, r);
      s.(reply := reply, borrowed := borrowed, valid := s.valid || !LateDiscard(s, r))
  }

  /** The reply slot in place. */
  class ReplySlot {
    var cmdWaiting: bool
    var replyValid: bool
    var seqPending: u32
    var cmdVerb: byte
    var reply: Reply
    var dataBorrowed: bool

    constructor ()
      ensures !cmdWaiting && !replyValid
    {
      cmdWaiting, replyValid, seqPending, cmdVerb, reply, dataBorrowed := false, false, 0, 0, Incomplete, false;
    }

    function Abs(): Slot
      reads this
    {
      Slot(cmdWaiting, replyValid, seqPending, cmdVerb, reply, dataBorrowed)
    }

    /** stash_reply: the slot's reply is written, its bytes borrowed, before the last two checks. */
    method StashReply(r: Reply)
      modifies this
      ensures Abs() == Stash(old(Abs()), r)
    {
      if !cmdWaiting { return; }
      if r.Init? && cmdVerb != 'y' as int && cmdVerb != 'w' as int { return; }
      if seqPending != 0 && !r.Init? {
        if r.Info? || r.Tail() == [] { return; }
        if Last(r.Tail()) != seqPending { return; }
      }
      reply, dataBorrowed := r, r.Init? && r.data != [];
      if seqPending != 0 && r.Error? {
        reply := Error(r.code, |r.tail| >= 2, if |r.tail| >= 2 then r.tail[0] else 0, r.tail);
      }
      if r.Info? {
        var n := |r.text|;
        if n > TEXT_MAX { n := TEXT_MAX; }
        reply := Info(r.text[..n]);
      }
      if r.Init? {
        var inTime := KeepInit(r);
        if !inTime { return; }
      }
      replyValid := true;
    }

    /** The end of stash_reply, for an init reply: its bytes are copied out, or its tokens read as key bytes,
        unless they are another command's. */
    method KeepInit(r: Reply) returns (inTime: bool)
      requires r.Init? && reply == r && dataBorrowed == (r.data != [])
      modifies this`reply, this`dataBorrowed
      ensures inTime == !Late(seqPending, r) && (reply, dataBorrowed) == Left(seqPending, r)
    {
      assert AsBytes([]) == [];
      if r.data != [] {
        if seqPending != 0 && r.tail != [] && Last(r.tail) != seqPending { return false; }
        var n := |r.data|;
        if n > DATA_MAX { n := DATA_MAX; }
        reply, dataBorrowed := Init(r.channel, r.a, r.tail, r.data[..n]), false;
      } else if r.tail != [] {
        var ntok := |r.tail|;
        if seqPending != 0 {
          if r.tail[ntok - 1] == seqPending {
            ntok := ntok - 1;
          } else if r.tail[ntok - 1] > 0xFF {
            return false;
          }
        }
        var bytes := TokensToBytes(r.tail[..ntok]);
        assert r.tail[..|r.tail|] == r.tail;
        reply := Init(r.channel, r.a, r.tail, bytes);
      }
      return true;
    }

    /** A command takes the slot over before it writes. */
    method Claim(wait: bool, seqNumber: u32, verb: byte)
      modifies this
      ensures Abs() == Slot(wait, false, seqNumber, verb, old(reply), old(dataBorrowed))
    {
      replyValid, cmdWaiting, seqPending, cmdVerb := false, wait, seqNumber, verb;
    }

    /** What the waiting command leaves with: the reply when there is one. */
    method Collect() returns (got: bool, r: Reply)
      modifies this
      ensures got == old(replyValid) && (got ==> r == old(reply))
      ensures Abs() == old(Abs()).(waiting := false, valid := false)
    {
      got, r := replyValid, reply;
      replyValid, cmdWaiting := false, false;
    }
  }

  /** The loop over key-byte tokens: one that is not a byte voids the result. */
  method TokensToBytes(tokens: seq<u32>) returns (bytes: seq<byte>)
    ensures bytes == AsBytes(tokens)
  {
    bytes := [];
    for k := 0 to |tokens|
      invariant |bytes| == k && forall i | 0 <= i < k :: tokens[i] <= 0xFF && bytes[i] == tokens[i]
    {
      if tokens[k] > 0xFF { return []; }
      bytes := bytes + [tokens[k]];
    }
  }

  // ---- what the checks achieve ----

  // ---- what an accepted reply comes to ----

  /** The tokens of an `arw` as bytes, without the number where it stands behind them, and none at all when one
      of them is not a byte. */
  ghost predicate AreKeyBytes(number: u32, tail: seq<u32>, bytes: seq<byte>)
  {
    var n := if number != 0 && tail != [] && Last(tail) == number then |tail| - 1 else |tail|;
    if exists k | 0 <= k < n :: tail[k] > 0xFF then bytes == []
    else |bytes| == n && forall k | 0 <= k < n :: bytes[k] == tail[k]
  }

  /** What a command that takes `r` is handed: the reply as it came, every field in its place. Only an `are` for
      a numbered command has its detail found anew, in front of the number; an `ari` is cut to 191 bytes; and an
      init gets its raw bytes, up to 255 of them, or else its key bytes. */
  ghost predicate HandsOn(number: u32, r: Reply, got: Reply)
  {
    match r
    case Error(code, _, _, tail) =>
      if number == 0 then got == r
      else got == Error(code, |tail| > 1, if |tail| > 1 then tail[0] else 0, tail)
    case Info(text) => got.Info? && got.text <= text && |got.text| == Min(|text|, 191)
    case Init(ch, a, tail, data) =>
      && got.Init? && got.channel == ch && got.a == a && got.tail == tail
      && if data != [] then got.data <= data && |got.data| == Min(|data|, 255) else AreKeyBytes(number, tail, got.data)
    case _ => got == r
  }

  lemma KeptHandsOn(number: u32, r: Reply)
    ensures HandsOn(number, r, Kept(number, r))
  {
  }

  /** What is in the slot after `r` was let in: the reply as the command is to have it, or, given up late, as it
      came, any raw bytes borrowed. */
  ghost predicate Leaves(number: u32, r: Reply, got: Reply, borrowed: bool)
  {
    if Late(number, r) then got == r && borrowed == (r.data != []) else HandsOn(number, r, got) && !borrowed
  }

  lemma LeftLeaves(number: u32, r: Reply)
    ensures Leaves(number, r, Left(number, r).0, Left(number, r).1)
  {
    hide HandsOn, Kept;
    KeptHandsOn(number, r);
  }

  /** Whatever a waiting command accepts it is handed so. */
  lemma AcceptedIsHandedOn(s: Slot, r: Reply)
    requires s.waiting && !s.valid && Stash(s, r).valid
    ensures HandsOn(s.pending, r, Stash(s, r).reply) && !Stash(s, r).borrowed
  {
    hide HandsOn, Kept;
    KeptHandsOn(s.pending, r);
  }

  /** In text: a numbered `arr`, `arg`, `arf`, `arm` or `aro` ends up in the slot of its command with every field
      as it was printed. */
  lemma PrintedReplyIsHandedOn(s: Slot, r: Reply, rest: seq<byte>)
    requires s.waiting && s.pending != 0 && !s.AwaitsInit() && ReplyText.Printable(r)
    requires (r.Ok? || r.Pin? || r.Filter? || r.Config? || r.Periodic?) && r.tail != [] && Last(r.tail) == s.pending
    ensures Stash(s, Parse(ReplyText.Wire(r) + rest).reply) == s.(valid := true, reply := r, borrowed := false)
  {
    hide ReplyText.Wire, Parse;
    ReplyText.TextRoundTrip(r, rest);
  }

  /** A numbered command other than an init accepts a reply exactly when the reply's last token is
      the command's number. */
  lemma AcceptsItsNumberOnly(s: Slot, r: Reply)
    requires s.waiting && !s.valid && s.pending != 0 && !s.AwaitsInit()
    ensures Stash(s, r).valid <==> !r.Init? && r.Tail() != [] && Last(r.Tail()) == s.pending
    ensures !Stash(s, r).valid ==> Stash(s, r) == s
  {
  }

  /** A stored reply of a command other than an init is replaced by replies of its own number only,
      and never withdrawn. */
  lemma NeverWithdrawn(s: Slot, r: Reply)
    requires s.waiting && s.valid
    ensures Stash(s, r).valid
    ensures !s.AwaitsInit() && s.pending != 0 && Stash(s, r) != s ==> Last(r.Tail()) == s.pending
  {
  }

  /** A waiting init may lose the reply it has. No init reply counts as stale for it, so it loses its
      reply to every one that leaves another in the slot: as it came, its bytes borrowed, if it is given up
      late, and interpreted if not. The slot stays valid, and a reply given up late would not even have
      been accepted on its own. */
  lemma InitReplyIsOverwritten(s: Slot, r: Reply)
    requires s.waiting && s.valid && s.AwaitsInit()
    ensures var after := Stash(s, r);
            && after.valid
            && ((after.reply, after.borrowed) != (s.reply, s.borrowed)
                <==> !Stale(s, r) && Left(s.pending, r) != (s.reply, s.borrowed))
            && (after.borrowed <==> if Stale(s, r) then s.borrowed else Late(s.pending, r) && r.data != [])
    ensures r.Init? ==> !Stale(s, r)
    ensures LateDiscard(s, r) ==> !Stash(s.(valid := false), r).valid
  {
  }

  /** What ioctl_init makes of the reply it collects: it fails without bytes, and bytes that were only
      borrowed are those `n` of the accumulator that stand there by then. */
  datatype InitOutcome = InitFailed | Returned(bytes: seq<byte>) | AccumulatorBytes(n: nat)

  function OutcomeOf(s: Slot): InitOutcome
  {
    if !s.reply.Init? || s.reply.data == [] then InitFailed
    else if s.borrowed then AccumulatorBytes(|s.reply.data|)
    else Returned(s.reply.data)
  }

  /** An example: command 300's key bytes 8 and 8 give way to the late answer to command 299, and the init
      fails with an empty result. */
  lemma LateInitReplyWins()
    ensures var s := Slot(true, false, 300, 'w' as int, Incomplete, false);
            var own := Stash(s, Init(3, 0, [8, 8, 300], []));
            var late := Init(3, 0, [1, 2, 299], []);
            && own.valid && OutcomeOf(own) == Returned([8, 8])
            && Stash(own, late).valid && OutcomeOf(Stash(own, late)) == InitFailed
  {
    var tail: seq<u32> := [8, 8, 300];
    assert tail[..2] == [8, 8];
  }

  /** Another: an unnumbered `ary`, made for another init, is no late discard, and replaces them too. */
  lemma UnnumberedInitReplyWins()
    ensures var s := Slot(true, false, 300, 'w' as int, Incomplete, false);
            var own := Stash(s, Init(3, 0, [8, 8, 300], []));
            var other := Init(3, 2, [], [1, 2]);
            && own.valid && OutcomeOf(own) == Returned([8, 8])
            && !LateDiscard(own, other) && Stash(own, other).valid && OutcomeOf(Stash(own, other)) == Returned([1, 2])
  {
    var tail: seq<u32> := [8, 8, 300];
    assert tail[..2] == [8, 8];
    var data: seq<byte> := [1, 2];
    assert data[..2] == data;
  }

  /** And a third: the init's own `ary`, repeated behind a token that is not its number, leaves the slot
      pointing at two bytes of the accumulator. */
  lemma LateRawReplyIsBorrowed()
    ensures var s := Slot(true, false, 256, 'y' as int, Incomplete, false);
            var first := Stash(s, Init(3, 2, [256], [8, 8]));
            var again := Init(3, 2, [5], [9, 9]);
            && first.valid && OutcomeOf(first) == Returned([8, 8])
            && Stash(first, again).valid && OutcomeOf(Stash(first, again)) == AccumulatorBytes(2)
  {
    var data: seq<byte> := [8, 8];
    assert data[..2] == data;
  }

  /** A command without a number (`ati`) takes any reply but an init reply. */
  lemma UnnumberedTakesAny(s: Slot, r: Reply)
    requires s.waiting && s.pending == 0 && !s.AwaitsInit()
    ensures Stash(s, r).valid <==> s.valid || !r.Init?
  {
  }

  /** An example: `ati` takes the late acknowledgement of command 299 for its answer. */
  lemma LateReplyAnswersVersion()
    ensures var s := Slot(true, false, 0, 'i' as int, Incomplete, false);
            Stash(s, Ok([299])).valid && Stash(s, Ok([299])).reply == Ok([299])
  {
  }

  /** `are <code> [<detail>] <seq>`: once the command is numbered, a detail is recovered exactly when
      one was printed. */
  lemma ErrorDetailRecovered(s: Slot, code: u32, detail: seq<u32>, rest: seq<byte>)
    requires s.waiting && s.pending != 0 && |detail| <= 1
    ensures var tail := detail + [s.pending];
            var printed := Error(code, true, tail[0], tail);
            && ReplyText.Printable(printed)
            && var got := Parse(ReplyText.Wire(printed) + rest).reply;
               Stash(s, got) == s.(valid := true, borrowed := false, reply := Error(code, detail != [], if detail != [] then detail[0] else 0, tail))
  {
    hide ReplyText.Wire, Parse;
    var tail := detail + [s.pending];
    ReplyText.TextRoundTrip(Error(code, true, tail[0], tail), rest);
  }

  // ---- key bytes ----

  /** The key bytes as tokens, and what follows them. */
  function KeyTokens(bytes: seq<byte>, number: seq<u32>): seq<u32>
  {
    seq(|bytes|, k requires 0 <= k < |bytes| => bytes[k] as u32) + number
  }

  /** What the slot makes of an `arw` line of these tokens. */
  function StashKeyLine(s: Slot, ch: u32, tokens: seq<u32>): Slot
  {
    Stash(s, Parse(ReplyText.Line(ReplyText.KeyBytesBody(ch, tokens))).reply)
  }

  lemma KeyLineParses(s: Slot, ch: u32, tokens: seq<u32>)
    ensures StashKeyLine(s, ch, tokens) == Stash(s, Init(ch, 0, tokens[..Min(|tokens|, TAIL_MAX)], []))
  {
    hide Parse, ReplyText.Line;
    var line := ReplyText.Line(ReplyText.KeyBytesBody(ch, tokens));
    ReplyText.KeyBytesRoundTrip(ch, tokens, []);
    assert line + [] == line;
  }

  /** The key bytes of the pending init come back whole exactly when there are at most eight, whether
      or not the cable echoes the number. */
  lemma KeyBytesDecode(s: Slot, ch: u32, bytes: seq<byte>, echoed: bool)
    requires s.waiting && s.AwaitsInit() && s.pending >= SEQ_FIRST
    ensures var after := StashKeyLine(s, ch, KeyTokens(bytes, if echoed then [s.pending] else []));
            && after.valid && after.reply.Init?
            && after.reply.data == bytes[..Min(|bytes|, TAIL_MAX)]
            && (after.reply.data == bytes <==> |bytes| <= TAIL_MAX)
  {
    hide StashKeyLine;
    var tokens := KeyTokens(bytes, if echoed then [s.pending] else []);
    KeyLineParses(s, ch, tokens);
    var tail := tokens[..Min(|tokens|, TAIL_MAX)];
    assert tail != [] && Last(tail) == s.pending ==> |tail| == |bytes| + 1 by {
      assert |tail| <= |bytes| && tail != [] ==> Last(tail) == bytes[|tail| - 1];
    }
    assert !LateDiscard(s, Init(ch, 0, tail, []));
    assert KeyBytes(s.pending, tail) == bytes[..Min(|bytes|, TAIL_MAX)];
  }

  /** An `arw` that ends in another command's number is refused exactly when its key bytes leave
      room for the number among the eight tokens stored. */
  lemma ForeignKeyBytes(s: Slot, ch: u32, bytes: seq<byte>, other: u32)
    requires s.waiting && s.AwaitsInit() && s.pending >= SEQ_FIRST && !s.valid
    requires other >= SEQ_FIRST && other != s.pending
    ensures !StashKeyLine(s, ch, KeyTokens(bytes, [other])).valid <==> |bytes| < TAIL_MAX
  {
    hide StashKeyLine;
    var tokens := KeyTokens(bytes, [other]);
    KeyLineParses(s, ch, tokens);
    var tail := tokens[..Min(|tokens|, TAIL_MAX)];
    if |bytes| < TAIL_MAX {
      assert Last(tail) == other;
    } else {
      assert Last(tail) == bytes[TAIL_MAX - 1];
    }
  }
}
