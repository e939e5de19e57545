/** server_common/tcpserver.cpp, `clientLoop`: the reader thread of one session, from reads
    of any size to the frames it processes, with the tighter bound before authentication. */
module ClientLoop {
  import opened Basics
  import opened Framing

  const UNAUTHENTICATED_LIMIT: nat := 16 * 1024

  /** Why the loop stopped: no more reads, processing closed the session, or an error. */
  datatype Ended = OutOfReads | Closed | FrameTooLarge | QuotaExceeded

  /** Whether the session is authenticated, and whether it is closing, once it has
      processed these frames. */
  datatype Session = Session(authenticated: seq<string> -> bool, closing: seq<string> -> bool)

  /** Authentication is never taken back. */
  ghost predicate Lasting(s: Session) {
    forall h, f :: s.authenticated(h) ==> s.authenticated(h + [f])
  }

  function NonEmpty(frames: seq<string>): seq<string> {
    if frames == [] then []
    else NonEmpty(frames[..|frames| - 1]) + (if frames[|frames| - 1] == "" then [] else [frames[|frames| - 1]])
  }

  lemma NonEmptySnoc(frames: seq<string>, f: string)
    ensures NonEmpty(frames + [f]) == NonEmpty(frames) + (if f == "" then [] else [f])
  {
    assert (frames + [f])[..|frames|] == frames;
  }

  /** Whether a frame is dropped does not depend on what stands around it. */
  lemma {:induction false} NonEmptyAppend(a: seq<string>, b: seq<string>)
    ensures NonEmpty(a + b) == NonEmpty(a) + NonEmpty(b)
  {
    if b == [] {
      assert a + b == a;
    } else {
      var init, f := b[..|b| - 1], b[|b| - 1];
      NonEmptyAppend(a, init);
      NonEmptySnoc(a + init, f);
      assert (a + init) + [f] == a + b;
    }
  }

  /** Exactly the blank frames are dropped. */
  lemma {:induction false} NonEmptyIs(frames: seq<string>)
    ensures "" !in frames ==> NonEmpty(frames) == frames
    ensures NonEmpty([""]) == []
  {
    NonEmptySnoc([], "");
    assert [] + [""] == [""];
    if frames != [] {
      var init, f := frames[..|frames| - 1], frames[|frames| - 1];
      NonEmptyIs(init);
      NonEmptySnoc(init, f);
      assert init + [f] == frames && f in frames;
    }
  }

  /** Every processed frame was within the bounds of its moment. */
  predicate Bounded(max: nat, s: Session, handled: seq<string>) {
    forall i | 0 <= i < |handled| ::
      |handled[i]| <= max && (s.authenticated(handled[..i]) || |handled[i]| <= UNAUTHENTICATED_LIMIT)
  }

  /** The frame after those let through is above the limit before authentication. */
  predicate NextTooLong(p: Pieces, popped: seq<string>) {
    |popped| < |p.complete| && |p.complete[|popped|]| > UNAUTHENTICATED_LIMIT
  }

  /** Nothing was processed after the session began to close. */
  predicate OpenSoFar(s: Session, handled: seq<string>) {
    forall i | 0 <= i < |handled| :: !s.closing(handled[..i])
  }

  lemma OpenMore(s: Session, handled: seq<string>, f: string)
    requires OpenSoFar(s, handled) && !s.closing(handled)
    ensures OpenSoFar(s, handled + [f])
  {
    var more := handled + [f];
    forall i | 0 <= i < |more| ensures !s.closing(more[..i]) {
      assert more[..i] == if i < |handled| then handled[..i] else handled;
    }
  }

  /** What the loop has done with a stream. */
  ghost predicate Served(max: nat, stream: string, s: Session, popped: seq<string>, handled: seq<string>,
                         ended: Ended) {
    var p := Split(stream);
    && popped <= p.complete && handled == NonEmpty(popped) && Bounded(max, s, handled)
    && OpenSoFar(s, handled)
    && (ended.FrameTooLarge? <==> Exceeds(p, max))
    && (ended.QuotaExceeded? ==>
          !s.authenticated(handled) && (NextTooLong(p, popped) || |p.pending| > UNAUTHENTICATED_LIMIT))
    && (ended.Closed? <==> s.closing(handled))
    && (ended.OutOfReads? ==>
          popped == p.complete && (s.authenticated(handled) || |p.pending| <= UNAUTHENTICATED_LIMIT))
  }

  /** The parser between two operations of the loop. */
  ghost predicate Tracks(parser: FrameParser, r: Run)
    reads parser
  {
    r.parser == parser.View() && Describes(parser.maxFrameBytes, r) && !r.parser.overflowed
  }

  lemma BoundedMore(max: nat, s: Session, handled: seq<string>, f: string)
    requires Bounded(max, s, handled) && |f| <= max && (s.authenticated(handled) || |f| <= UNAUTHENTICATED_LIMIT)
    ensures Bounded(max, s, handled + [f])
  {
    var more := handled + [f];
    forall i | 0 <= i < |more|
      ensures |more[i]| <= max && (s.authenticated(more[..i]) || |more[i]| <= UNAUTHENTICATED_LIMIT)
    {
      assert more[..i] == if i < |handled| then handled[..i] else handled;
    }
  }

  /** The inner loop: completed frames one after the other, blank ones dropped. `r` is the
      parser's history up to the last frame that was let through. */
  method Drain(parser: FrameParser, s: Session, before: seq<string>, ghost r0: Run)
    returns (handled: seq<string>, ended: Ended, ghost r: Run)
    requires Tracks(parser, r0) && before == NonEmpty(r0.popped) && Lasting(s) && !s.closing(before)
    requires Bounded(parser.maxFrameBytes, s, before) && OpenSoFar(s, before)
    modifies parser
    ensures Describes(parser.maxFrameBytes, r) && !r.parser.overflowed && r.stream == r0.stream
    ensures handled == NonEmpty(r.popped) && Bounded(parser.maxFrameBytes, s, handled) && OpenSoFar(s, handled)
    ensures s.authenticated(before) ==> s.authenticated(handled)
    ensures ended.OutOfReads? || ended.QuotaExceeded? || ended.Closed?
    ensures ended.OutOfReads? ==> Tracks(parser, r) && r.parser.completed == [] && !s.closing(handled)
    ensures ended.QuotaExceeded? ==> !s.authenticated(handled) && NextTooLong(Split(r.stream), r.popped)
    ensures ended.Closed? <==> s.closing(handled)
  {
    hide Describes, Bounded, OpenSoFar;
    handled, r := before, r0;
    while true
      invariant Tracks(parser, r) && r.stream == r0.stream && !s.closing(handled)
      invariant handled == NonEmpty(r.popped) && Bounded(parser.maxFrameBytes, s, handled) && OpenSoFar(s, handled)
      invariant s.authenticated(before) ==> s.authenticated(handled)
      decreases |parser.completedFrames|
    {
      var popped, frame := parser.PopFrame();
      if !popped {
        return handled, OutOfReads, r;
      }
      FirstCompleted(parser.maxFrameBytes, r);
      DescribesPop(parser.maxFrameBytes, r);
      if !s.authenticated(handled) && |frame| > UNAUTHENTICATED_LIMIT {
        return handled, QuotaExceeded, r;
      }
      NonEmptySnoc(r.popped, frame);
      r := r.(parser := r.parser.(completed := r.parser.completed[1..]), popped := r.popped + [frame]);
      if frame != "" {
        BoundedMore(parser.maxFrameBytes, s, handled, frame);
        OpenMore(s, handled, frame);
        handled := handled + [frame];
      }
      if s.closing(handled) {
        return handled, Closed, r;
      }
    }
  }

  lemma FirstCompleted(max: nat, r: Run)
    requires Describes(max, r) && !r.parser.overflowed && r.parser.completed != []
    ensures var f := r.parser.completed[0];
            && f in Split(r.stream).complete && |f| <= max
            && (|f| > UNAUTHENTICATED_LIMIT ==> NextTooLong(Split(r.stream), r.popped))
  {
    var f := r.parser.completed[0];
    assert Split(r.stream).complete[|r.popped|] == f;
  }

  lemma BeforeAnyRead(max: nat)
    ensures Describes(max, Run(EMPTY_PARSER, [], ""))
  {}

  /** What `Describes` says once a read has overflowed, or once all frames are out. */
  lemma Outcomes(max: nat, r: Run)
    requires Describes(max, r)
    ensures r.popped <= Split(r.stream).complete && (r.parser.overflowed <==> Exceeds(Split(r.stream), max))
    ensures !r.parser.overflowed ==> r.parser.current == Split(r.stream).pending
    ensures !r.parser.overflowed && r.parser.completed == [] ==> r.popped == Split(r.stream).complete
  {
    if r.parser.completed == [] {
      assert r.popped + [] == r.popped;
    }
  }

  /** `clientLoop`. For every stream in every fragmentation: the frames processed are, in
      order, the non-blank ones of a prefix of the newline split - all of it when reads ran
      out; the connection fails with a too large frame exactly when the split exceeds the
      bound; and before authentication nothing above 16 KiB is processed. */
  method Serve(parser: FrameParser, chunks: seq<string>, s: Session)
    returns (handled: seq<string>, ended: Ended, used: nat, ghost popped: seq<string>)
    requires parser.View() == EMPTY_PARSER && Lasting(s) && !s.closing([])
    modifies parser
    ensures used <= |chunks| && (ended.OutOfReads? ==> used == |chunks|)
    ensures Served(parser.maxFrameBytes, Concat(chunks[..used]), s, popped, handled, ended)
  {
    hide Describes, Bounded, Exceeds, Split, NonEmpty, Fed, Concat;
    ghost var r := Run(EMPTY_PARSER, [], "");
    BeforeAnyRead(parser.maxFrameBytes);
    handled, used, ended := [], 0, OutOfReads;
    NothingYet(parser.maxFrameBytes, s);
    assert chunks[..0] == [];
    while used < |chunks|
      invariant used <= |chunks| && r.stream == Concat(chunks[..used])
      invariant Tracks(parser, r) && r.parser.completed == [] && !s.closing(handled)
      invariant handled == NonEmpty(r.popped) && Bounded(parser.maxFrameBytes, s, handled) && OpenSoFar(s, handled)
      invariant s.authenticated(handled) || |Split(r.stream).pending| <= UNAUTHENTICATED_LIMIT
    {
      var ok := parser.Append(chunks[used]);
      DescribesRead(parser.maxFrameBytes, r, chunks[used]);
      r := FeedRun(parser.maxFrameBytes, r, chunks[used]);
      assert chunks[..used + 1] == chunks[..used] + [chunks[used]];
      ConcatSnoc(chunks[..used], chunks[used]);
      used := used + 1;
      Outcomes(parser.maxFrameBytes, r);
      if !ok {
        return handled, FrameTooLarge, used, r.popped;
      }
      if !s.authenticated(handled) && |parser.currentFrame| > UNAUTHENTICATED_LIMIT {
        return handled, QuotaExceeded, used, r.popped;
      }
      handled, ended, r := Drain(parser, s, handled, r);
      Outcomes(parser.maxFrameBytes, r);
      if !ended.OutOfReads? {
        return handled, ended, used, r.popped;
      }
    }
    assert chunks[..used] == chunks;
    Outcomes(parser.maxFrameBytes, r);
    return handled, OutOfReads, used, r.popped;
  }

  lemma NothingYet(max: nat, s: Session)
    ensures Bounded(max, s, []) && NonEmpty([]) == [] && Split("") == Pieces([], "") && Concat<char>([]) == ""
  {}
}
