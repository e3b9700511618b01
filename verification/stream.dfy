/** The accumulator between the transport's reads and op_parse: consume_accum and the reader loop. */
module Stream {
  import opened Bytes
  import opened Proto
  import Decimal

  const READ_MAX: nat := 1024
  const ACCUM_CAP: nat := MSG_MAX + FRAME_MAX
  /** Where the terminator of an unfinished reply's line can be at most. */
  const LINE_BOUND: nat := CMD_MAX * 4 + READ_MAX
  /** What the accumulator can hold at most between reads. */
  const REST_BOUND: nat := LINE_BOUND + 254

  /** The replies decoded from a buffer, the bytes left for later, and whether no junk was met. */
  datatype Consumed = Consumed(events: seq<Reply>, rest: seq<byte>, clean: bool)

  /** Bytes to step over at a junk report. */
  function JunkSkip(buf: seq<byte>): (n: nat)
    requires Parse(buf).used > 0
    ensures 0 < n <= |buf|
  {
    Max(ResyncOffset(buf), Parse(buf).used)
  }

  /** consume_accum: decode until more bytes are needed, stepping over junk. */
  function Consume(buf: seq<byte>): Consumed
    decreases |buf|
  {
    var p := Parse(buf);
    if p.used == 0 then Consumed([], buf, true)
    else if p.reply.Junk? then
      var c := Consume(buf[JunkSkip(buf)..]);
      Consumed(c.events, c.rest, false)
    else
      var c := Consume(buf[p.used..]);
      Consumed([p.reply] + c.events, c.rest, c.clean)
  }

  /** The accumulator and everything emitted so far. */
  datatype Reader = Reader(accum: seq<byte>, emitted: seq<Reply>)

  /** One successful read: append what fits, consume, discard a full accumulator. */
  function Feed(r: Reader, chunk: seq<byte>): Reader
    requires |r.accum| <= ACCUM_CAP
    ensures |Feed(r, chunk).accum| <= ACCUM_CAP
  {
    var take := Min(|chunk|, ACCUM_CAP - |r.accum|);
    var c := Consume(r.accum + chunk[..take]);
    ConsumeRest(r.accum + chunk[..take]);
    Reader(if |c.rest| == ACCUM_CAP then [] else c.rest, r.emitted + c.events)
  }

  ghost predicate Reads(chunks: seq<seq<byte>>)
  {
    forall i | 0 <= i < |chunks| :: 1 <= |chunks[i]| <= READ_MAX
  }

  lemma ConsumeRest(buf: seq<byte>)
    ensures Parse(Consume(buf).rest).used == 0
    ensures |Consume(buf).rest| <= |buf|
    decreases |buf|
  {
    var p := Parse(buf);
    if p.used > 0 {
      ConsumeRest(buf[if p.reply.Junk? then JunkSkip(buf) else p.used..]);
    }
  }

  // ---- the accumulator never fills, junk or not ----

  /** An unfinished record whose line, when it already ended, ended early enough. */
  predicate Resting(acc: seq<byte>)
  {
    && Parse(acc).used == 0
    && (|acc| >= 3 && !Decimal.IsDigit(acc[2]) && LineEnd(acc, 2) < |acc| ==> LineEnd(acc, 2) + 2 <= LINE_BOUND)
  }

  lemma RestingIsSmall(acc: seq<byte>)
    requires Resting(acc)
    ensures |acc| <= REST_BOUND
  {
    hide ParseAscii;
  }

  /** A reply still incomplete after more than a line's worth of bytes swallows all of them once
      it is decided. */
  lemma LongRestIsSwallowed(acc: seq<byte>, more: seq<byte>)
    requires Resting(acc) && |acc| > CMD_MAX * 4
    ensures var p := Parse(acc + more);
            if p.used == 0 then Resting(acc + more) else p.used > |acc| && !p.reply.Junk?
  {
    hide ParseAscii;
    var buf := acc + more;
    assert buf[0] == acc[0] && buf[1] == acc[1] && buf[2] == acc[2] && buf[3] == acc[3];
    if !Decimal.IsDigit(acc[2]) {
      LineEndStable(acc, more, 2);
      var e := LineEnd(acc, 2);
      assert buf[2..e] == acc[2..e];
    }
  }

  lemma RestStaysSmall(acc: seq<byte>, chunk: seq<byte>)
    requires Resting(acc) && |chunk| <= READ_MAX
    ensures Resting(Consume(acc + chunk).rest)
  {
    hide Parse, ResyncOffset;
    var buf := acc + chunk;
    ConsumeRest(buf);
    if |buf| > LINE_BOUND {
      LongRestIsSwallowed(acc, chunk);
      var p := Parse(buf);
      if p.used > 0 {
        ConsumeRest(buf[p.used..]);
      }
    }
  }

  /** The state after a list of reads. */
  function FeedAll(chunks: seq<seq<byte>>): (r: Reader)
    ensures |r.accum| <= ACCUM_CAP
  {
    if chunks == [] then Reader([], [])
    else Feed(FeedAll(chunks[..|chunks| - 1]), chunks[|chunks| - 1])
  }

  /** Nothing of this read is dropped for want of room, and the result is not discarded. */
  predicate Lossless(r: Reader, chunk: seq<byte>)
  {
    |r.accum| + |chunk| <= ACCUM_CAP && |Consume(r.accum + chunk).rest| < ACCUM_CAP
  }

  lemma ReadRests(r: Reader, chunk: seq<byte>)
    requires Resting(r.accum) && |chunk| <= READ_MAX && |r.accum| <= ACCUM_CAP
    ensures Lossless(r, chunk) && Resting(Feed(r, chunk).accum) && |Feed(r, chunk).accum| <= REST_BOUND
  {
    hide Consume, Resting;
    RestingIsSmall(r.accum);
    RestStaysSmall(r.accum, chunk);
    RestingIsSmall(Consume(r.accum + chunk).rest);
    assert chunk[..|chunk|] == chunk;
  }

  /** Over every byte stream, junk included, and every division into reads: the accumulator stays
      under REST_BOUND, so neither the reader's byte drop nor the full-accumulator discard is ever
      reached. */
  lemma {:induction false} AccumulatorBound(chunks: seq<seq<byte>>)
    requires Reads(chunks)
    ensures Resting(FeedAll(chunks).accum) && |FeedAll(chunks).accum| <= REST_BOUND
    ensures forall k | 0 <= k < |chunks| :: Lossless(FeedAll(chunks[..k]), chunks[k])
  {
    hide Consume, Resting, Feed, Lossless;
    if chunks == [] {
      EmptyRests();
    } else {
      var n := |chunks| - 1;
      var before := chunks[..n];
      AccumulatorBound(before);
      ReadRests(FeedAll(before), chunks[n]);
      forall k | 0 <= k < |chunks| ensures Lossless(FeedAll(chunks[..k]), chunks[k]) {
        if k < n { assert before[..k] == chunks[..k] && before[k] == chunks[k]; }
      }
    }
  }

  lemma EmptyRests()
    ensures Resting([])
  {
  }

  // ---- read boundaries do not matter in a well-formed stream ----

  /** Exactly one reply, not junk. */
  predicate IsRecord(rec: seq<byte>)
  {
    Parse(rec).used == |rec| > 0 && !Parse(rec).reply.Junk?
  }

  /** A frame, or a reply whose line with its CR is at most 256 bytes. */
  predicate Short(rec: seq<byte>)
    requires |rec| >= 3
  {
    Decimal.IsDigit(rec[2]) || LineEnd(rec, 2) < CMD_MAX * 4
  }

  lemma RecordShape(rec: seq<byte>)
    requires IsRecord(rec)
    ensures |rec| >= 4 && rec[0] == 'a' as int && rec[1] == 'r' as int
    ensures !Decimal.IsDigit(rec[2]) ==> LineEnd(rec, 2) + 2 <= |rec|
  {
    hide ParseAscii;
  }

  /** The exact condition under which every beginning of a record waits for the rest of it: the
      parser gives a line up as junk once 257 bytes of it have come without a terminator. */
  lemma PrefixesWait(rec: seq<byte>)
    requires IsRecord(rec)
    ensures |rec| >= 3
    ensures (forall k | 0 <= k < |rec| :: Parse(rec[..k]).used == 0) <==> Short(rec)
  {
    hide Parse, LineEnd;
    RecordShape(rec);
    if Short(rec) {
      forall k | 0 <= k < |rec| ensures Parse(rec[..k]).used == 0 { PrefixWaits(rec, k); }
    } else {
      var e := LineEnd(rec, 2);
      UnendedLineIsJunk(rec, e + 1);
    }
  }

  lemma UnendedLineIsJunk(rec: seq<byte>, k: nat)
    requires IsRecord(rec) && !Short(rec) && k == LineEnd(rec, 2) + 1 < |rec|
    ensures Parse(rec[..k]) == Parsed(1, Junk)
  {
    hide ParseAscii;
    RecordShape(rec);
    var a := rec[..k];
    assert a[0] == rec[0] && a[1] == rec[1] && a[2] == rec[2];
    forall i | 2 <= i < k ensures !IsCrLf(a, i) {
      assert i < k - 1 ==> !IsCrLf(rec, i);
    }
    assert LineEnd(a, 2) == |a|;
  }

  lemma PrefixWaits(rec: seq<byte>, k: nat)
    requires IsRecord(rec) && |rec| >= 3 && Short(rec) && k < |rec|
    ensures Parse(rec[..k]).used == 0
  {
    hide ParseAscii;
    RecordShape(rec);
    var a, b := rec[..k], rec[k..];
    assert a + b == rec;
    if Parse(a).used > 0 && !Parse(a).reply.Junk? {
      ParseStable(a, b);
    } else if |a| >= 3 {
      assert a[0] == rec[0] && a[1] == rec[1] && a[2] == rec[2];
      if Decimal.IsDigit(rec[2]) {
        assert |a| >= 4 ==> a[3] == rec[3];
      } else {
        LineEndStable(a, b, 2);
        var e := LineEnd(a, 2);
        if e < |a| {
          assert LineEnd(rec, 2) == e && a[2..e] == rec[2..e];
          var r := ParseAscii(a[2..e]);
          assert Parse(a) == Complete(r, a, e) && Parse(rec) == Complete(r, rec, e);
        } else {
          assert IsCrLf(rec, LineEnd(rec, 2));
          assert |a| > LineEnd(rec, 2) + 1 ==> IsCrLf(a, LineEnd(rec, 2));
        }
      }
    }
  }

  /** Bytes consumed without meeting junk need not be looked at again when more arrive. */
  lemma {:induction false} ConsumeSplit(a: seq<byte>, b: seq<byte>)
    requires Consume(a).clean
    ensures Consume(a + b) == Then(Consume(a).events, Consume(Consume(a).rest + b))
    decreases |a|
  {
    hide Parse, Consume;
    var p := Parse(a);
    ConsumeStep(a);
    if p.used > 0 {
      ParseStable(a, b);
      assert (a + b)[p.used..] == a[p.used..] + b;
      ConsumeStep(a + b);
      ConsumeSplit(a[p.used..], b);
    }
  }

  /** `c` with `events` emitted before its own. */
  function Then(events: seq<Reply>, c: Consumed): Consumed
  {
    Consumed(events + c.events, c.rest, c.clean)
  }

  lemma ConsumeStep(a: seq<byte>)
    ensures var p := Parse(a);
            if p.used == 0 then Consume(a) == Consumed([], a, true)
            else if p.reply.Junk? then !Consume(a).clean
            else Consume(a) == Then([p.reply], Consume(a[p.used..]))
  {
    hide Parse, JunkSkip;
  }

  ghost predicate WellFormed(recs: seq<seq<byte>>)
  {
    forall i | 0 <= i < |recs| :: IsRecord(recs[i]) && |recs[i]| >= 3 && Short(recs[i])
  }

  /** What each record says. */
  function Decoded(recs: seq<seq<byte>>): seq<Reply>
  {
    seq(|recs|, i requires 0 <= i < |recs| => Parse(recs[i]).reply)
  }

  /** How many whole records lie in the first `n` bytes. */
  function Whole(recs: seq<seq<byte>>, n: nat): (k: nat)
    ensures k <= |recs|
  {
    if recs == [] || n < |recs[0]| then 0 else 1 + Whole(recs[1..], n - |recs[0]|)
  }

  /** The first `n` bytes of a well-formed stream, seen at once. */
  lemma {:induction false} PrefixConsumes(recs: seq<seq<byte>>, n: nat)
    requires WellFormed(recs) && n <= |Concat(recs)|
    ensures var k := Whole(recs, n);
            && |Concat(recs[..k])| <= n
            && Consume(Concat(recs)[..n])
            == Consumed(Decoded(recs[..k]), Concat(recs)[|Concat(recs[..k])|..n], true)
  {
    hide Parse, IsRecord, Short, Consume, Decoded;
    var stream, k := Concat(recs), Whole(recs, n);
    NothingDecoded();
    if recs == [] || n < |recs[0]| {
      assert recs[..0] == [];
      if recs == [] {
        NothingConsumes();
      } else {
        assert stream[..n] == recs[0][..n];
        PrefixWaits(recs[0], n);
        ConsumeStep(recs[0][..n]);
      }
    } else {
      var rec, more := recs[0], recs[1..];
      var left, whole := Concat(more), Concat(more[..k - 1]);
      PrefixConsumes(more, n - |rec|);
      assert recs[..k] == [rec] + more[..k - 1];
      assert Concat(recs[..k]) == rec + whole;
      assert stream[..n] == rec + left[..n - |rec|];
      RecordFirst(rec, left[..n - |rec|]);
      DecodedCons(recs[..k]);
      assert recs[..k][1..] == more[..k - 1];
      assert stream[|rec| + |whole|..n] == left[|whole|..n - |rec|];
    }
  }

  lemma NothingDecoded()
    ensures Decoded([]) == []
  {
  }

  lemma DecodedCons(recs: seq<seq<byte>>)
    requires recs != []
    ensures Decoded(recs) == [Parse(recs[0]).reply] + Decoded(recs[1..])
  {
    hide Parse;
  }

  lemma NothingConsumes()
    ensures Consume([]) == Consumed([], [], true)
  {
  }

  lemma RecordFirst(rec: seq<byte>, more: seq<byte>)
    requires IsRecord(rec)
    ensures Consume(rec + more)
         == Consumed([Parse(rec).reply] + Consume(more).events, Consume(more).rest, Consume(more).clean)
  {
    hide Parse;
    ParseStable(rec, more);
    assert (rec + more)[|rec|..] == more;
  }

  /** Reads that meet no junk, seen as one buffer up to each of them, can be taken one by one. */
  lemma {:induction false} CleanReads(chunks: seq<seq<byte>>)
    requires Reads(chunks) && forall k | 0 <= k <= |chunks| :: Consume(Concat(chunks[..k])).clean
    ensures var c := Consume(Concat(chunks));
            FeedAll(chunks) == Reader(c.rest, c.events)
  {
    hide Consume;
    if chunks == [] {
      NothingConsumes();
    } else {
      var before, last := chunks[..|chunks| - 1], chunks[|chunks| - 1];
      forall k | 0 <= k <= |before| ensures Consume(Concat(before[..k])).clean {
        assert before[..k] == chunks[..k];
      }
      CleanReads(before);
      assert chunks == before + [last] && before[..|before|] == before;
      ConcatAppend(before, [last]);
      assert Concat([last]) == last;
      ConsumeSplit(Concat(before), last);
      AccumulatorBound(chunks);
      assert Lossless(FeedAll(chunks[..|before|]), last);
      assert last[..|last|] == last;
    }
  }

  /** Read-boundary independence. However a well-formed stream is divided into reads, after each of
      them exactly the records that are complete have been emitted, each as it decodes on its own,
      and the accumulator holds the beginning of the next one. */
  lemma ReadBoundaryIndependence(recs: seq<seq<byte>>, chunks: seq<seq<byte>>)
    requires WellFormed(recs) && Reads(chunks) && Concat(chunks) <= Concat(recs)
    ensures var n := |Concat(chunks)|; var k := Whole(recs, n);
            && |Concat(recs[..k])| <= n
            && FeedAll(chunks) == Reader(Concat(recs)[|Concat(recs[..k])|..n], Decoded(recs[..k]))
  {
    hide Consume, Decoded, Whole, FeedAll;
    forall k | 0 <= k <= |chunks| ensures Consume(Concat(chunks[..k])).clean {
      PrefixClean(recs, chunks, k);
    }
    CleanReads(chunks);
    PrefixConsumes(recs, |Concat(chunks)|);
    assert Concat(recs)[..|Concat(chunks)|] == Concat(chunks);
  }

  lemma PrefixClean(recs: seq<seq<byte>>, chunks: seq<seq<byte>>, k: nat)
    requires WellFormed(recs) && Concat(chunks) <= Concat(recs) && k <= |chunks|
    ensures Consume(Concat(chunks[..k])).clean
  {
    hide Consume, Decoded, Whole;
    var n := |Concat(chunks[..k])|;
    assert chunks == chunks[..k] + chunks[k..];
    ConcatAppend(chunks[..k], chunks[k..]);
    assert Concat(recs)[..n] == Concat(chunks[..k]);
    PrefixConsumes(recs, n);
  }

  /** The whole stream, read to its end: every record once, in order, and nothing else. */
  lemma WholeStream(recs: seq<seq<byte>>, chunks: seq<seq<byte>>)
    requires WellFormed(recs) && Reads(chunks) && Concat(chunks) == Concat(recs)
    ensures FeedAll(chunks) == Reader([], Decoded(recs))
  {
    hide FeedAll, Decoded;
    ReadBoundaryIndependence(recs, chunks);
    WholeIsAll(recs);
    assert recs[..|recs|] == recs;
  }

  lemma {:induction false} WholeIsAll(recs: seq<seq<byte>>)
    ensures Whole(recs, |Concat(recs)|) == |recs|
  {
    if recs != [] { WholeIsAll(recs[1..]); }
  }

  /** Without well-formedness the claim is false: the same six bytes, one of them noise, read at once
      and read as two plus four. The split lets the resynchronisation swallow the "a". */
  lemma NoiseMakesBoundariesMatter()
    ensures var noise, reply := ['x' as int], ['a' as int, 'r' as int, 'o' as int, CR, LF];
            && FeedAll([noise + reply]) == Reader([], [Ok([])])
            && FeedAll([noise + reply[..1], reply[1..]]) == Reader([], [])
  {
    var noise, reply := ['x' as int], ['a' as int, 'r' as int, 'o' as int, CR, LF];
    hide Consume, FeedAll;
    assert FeedAll([]) == Reader([], []) by { EmptyFeeds(); }
    assert [] + [noise + reply] == [noise + reply] && [] + [noise + reply[..1]] == [noise + reply[..1]];
    assert [noise + reply[..1]] + [reply[1..]] == [noise + reply[..1], reply[1..]];
    var whole, cut := noise + reply, noise + reply[..1];
    NoiseConsumes(whole, cut);
    FeedAppends([], whole);
    FeedAppends([], cut);
    FeedAppends([cut], reply[1..]);
    LeftoverVanishes();
  }

  lemma EmptyFeeds()
    ensures FeedAll([]) == Reader([], [])
  {
  }

  lemma NoiseConsumes(whole: seq<byte>, cut: seq<byte>)
    requires whole == ['x' as int, 'a' as int, 'r' as int, 'o' as int, CR, LF]
    requires cut == ['x' as int, 'a' as int]
    ensures Consume(whole) == Consumed([Ok([])], [], false)
    ensures Consume(cut) == Consumed([], [], false)
  {
    ReplyConsumes();
    assert IsBoundary(whole, 1);
    assert whole[1..] == ['a' as int, 'r' as int, 'o' as int, CR, LF];
    assert Parse(whole) == Parsed(1, Junk) == Parse(cut);
    assert cut[2..] == [];
    NothingConsumes();
  }

  lemma FeedAppends(chunks: seq<seq<byte>>, chunk: seq<byte>)
    requires FeedAll(chunks).accum == [] && |chunk| < ACCUM_CAP
    ensures FeedAll(chunks + [chunk])
         == Reader(Consume(chunk).rest, FeedAll(chunks).emitted + Consume(chunk).events)
  {
    hide Consume;
    assert (chunks + [chunk])[..|chunks|] == chunks;
    assert [] + chunk[..|chunk|] == chunk;
    ConsumeRest(chunk);
  }

  lemma ReplyConsumes()
    ensures Consume(['a' as int, 'r' as int, 'o' as int, CR, LF]) == Consumed([Ok([])], [], true)
  {
    var reply: seq<byte> := ['a' as int, 'r' as int, 'o' as int, CR, LF];
    assert IsCrLf(reply, 3) && !IsCrLf(reply, 2);
    assert LineEnd(reply, 3) == 3;
    assert reply[2..3] == ['o' as int];
    assert ['o' as int][1..] == [];
    assert Tokens([]) == [];
    assert ParseAscii(['o' as int]) == Ok([]);
    assert Parse(reply) == Parsed(5, Ok([]));
    assert reply[5..] == [];
    NothingConsumes();
  }

  lemma LeftoverVanishes()
    ensures Consume(['r' as int, 'o' as int, CR, LF]) == Consumed([], [], false)
  {
    var left: seq<byte> := ['r' as int, 'o' as int, CR, LF];
    assert Parse(left) == Parsed(1, Junk);
    assert !IsBoundary(left, 1);
    assert ResyncFrom(left, 2) == 4;
    assert ResyncOffset(left) == 4;
    assert left[4..] == [];
    NothingConsumes();
  }
}
