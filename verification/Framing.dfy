/** server_common/frameparser.cpp and the line splitter of the receiving client: a byte
    stream cut anywhere becomes newline-terminated frames. */
module Framing {
  import opened Basics
  import opened Numerals

  /** A stream seen as its newline-terminated frames and the piece still pending. */
  datatype Pieces = Pieces(complete: seq<string>, pending: string)

  function Grow(p: Pieces, c: char): Pieces {
    if c == '\n' then Pieces(p.complete + [p.pending], "") else p.(pending := p.pending + [c])
  }

  function Split(s: string): Pieces {
    if s == "" then Pieces([], "") else Grow(Split(s[..|s| - 1]), s[|s| - 1])
  }

  lemma SplitSnoc(s: string, c: char)
    ensures Split(s + [c]) == Grow(Split(s), c)
  {
    assert (s + [c])[..|s|] == s;
  }

  /** The frames as they travel: each followed by a newline. */
  function Wire(frames: seq<string>): string {
    if frames == [] then "" else Wire(frames[..|frames| - 1]) + frames[|frames| - 1] + "\n"
  }

  lemma WireSnoc(frames: seq<string>, f: string)
    ensures Wire(frames + [f]) == Wire(frames) + f + "\n"
  {
    assert (frames + [f])[..|frames|] == frames;
  }

  lemma GrowRebuilds(p: Pieces, c: char)
    ensures Wire(Grow(p, c).complete) + Grow(p, c).pending == Wire(p.complete) + p.pending + [c]
  {
    WireSnoc(p.complete, p.pending);
    Assoc(Wire(p.complete), p.pending, [c]);
  }

  lemma {:induction false} PiecesArePlain(s: string)
    ensures '\n' !in Split(s).pending && forall f <- Split(s).complete :: '\n' !in f
  {
    if s != "" {
      PiecesArePlain(s[..|s| - 1]);
    }
  }

  /** Splitting loses nothing: no piece holds a newline, and putting the newlines back
      rebuilds the stream. */
  lemma {:induction false} SplitRebuilds(s: string)
    ensures Wire(Split(s).complete) + Split(s).pending == s
    ensures '\n' !in Split(s).pending && forall f <- Split(s).complete :: '\n' !in f
  {
    PiecesArePlain(s);
    if s != "" {
      var t, c := s[..|s| - 1], s[|s| - 1];
      SplitRebuilds(t);
      GrowRebuilds(Split(t), c);
      assert s == t + [c];
    }
  }

  /** More bytes only continue the pending piece. */
  lemma AppendNothing(a: string)
    ensures Split(a + "") == Split(a) && Split(Split(a).pending + "") == Pieces([], Split(a).pending)
  {
    SplitRebuilds(a);
    PlainSplit(Split(a).pending);
    assert a + "" == a && Split(a).pending + "" == Split(a).pending;
  }

  lemma {:induction false} SplitAppend(a: string, b: string)
    ensures var p := Split(a);
            var q := Split(p.pending + b);
            Split(a + b) == Pieces(p.complete + q.complete, q.pending)
  {
    var p := Split(a);
    if b == "" {
      AppendNothing(a);
      assert p.complete + [] == p.complete;
    } else {
      var t, c := b[..|b| - 1], b[|b| - 1];
      SplitAppend(a, t);
      SplitSnoc(a + t, c);
      SplitSnoc(p.pending + t, c);
      assert a + b == (a + t) + [c] && p.pending + b == (p.pending + t) + [c];
      var q := Split(p.pending + t);
      assert p.complete + (q.complete + [q.pending]) == p.complete + q.complete + [q.pending];
    }
  }

  lemma {:induction false} PlainSplit(s: string)
    requires '\n' !in s
    ensures Split(s) == Pieces([], s)
  {
    if s != "" {
      var t, c := s[..|s| - 1], s[|s| - 1];
      assert s == t + [c];
      PlainSplit(t);
      SplitSnoc(t, c);
    }
  }

  /* ---------------------------------------------------------------- the server's parser */

  datatype Parser = Parser(current: string, completed: seq<string>, overflowed: bool)

  const EMPTY_PARSER := Parser("", [], false)

  function Step(max: nat, p: Parser, c: char): Parser {
    if p.overflowed then p
    else if c == '\n' then Parser("", p.completed + [p.current], false)
    else if |p.current| >= max then Parser("", [], true)
    else p.(current := p.current + [c])
  }

  function Fed(max: nat, p: Parser, data: string): Parser {
    if data == "" then p else Step(max, Fed(max, p, data[..|data| - 1]), data[|data| - 1])
  }

  class FrameParser {
    const maxFrameBytes: nat
    var currentFrame: string
    var completedFrames: seq<string>
    var overflowed: bool

    ghost function View(): Parser
      reads this
    {
      Parser(currentFrame, completedFrames, overflowed)
    }

    constructor (max: nat)
      requires max > 0
      ensures maxFrameBytes == max && View() == EMPTY_PARSER
    {
      maxFrameBytes := max;
      currentFrame, completedFrames, overflowed := "", [], false;
    }

    method Reset()
      modifies this
      ensures View() == EMPTY_PARSER
    {
      currentFrame, completedFrames, overflowed := "", [], false;
    }

    method Append(data: string) returns (ok: bool)
      modifies this
      ensures View() == Fed(maxFrameBytes, old(View()), data)
      ensures ok == !overflowed
    {
      OverflowSticks(maxFrameBytes, View(), data);
      if overflowed {
        return false;
      }
      for index := 0 to |data|
        invariant View() == Fed(maxFrameBytes, old(View()), data[..index])
        invariant !overflowed
      {
        var value := data[index];
        assert data[..index + 1] == data[..index] + [value];
        if value == '\n' {
          completedFrames := completedFrames + [currentFrame];
          currentFrame := "";
          continue;
        }
        if |currentFrame| >= maxFrameBytes {
          Reset();
          overflowed := true;
          FedAppend(maxFrameBytes, old(View()), data[..index + 1], data[index + 1..]);
          assert data == data[..index + 1] + data[index + 1..];
          OverflowSticks(maxFrameBytes, View(), data[index + 1..]);
          return false;
        }
        currentFrame := currentFrame + [value];
      }
      assert data[..|data|] == data;
      ok := true;
    }

    method PopFrame() returns (popped: bool, frame: string)
      modifies this
      ensures popped == (old(completedFrames) != [])
      ensures popped ==> old(completedFrames) == [frame] + completedFrames
      ensures !popped ==> completedFrames == []
      ensures currentFrame == old(currentFrame) && overflowed == old(overflowed)
    {
      if completedFrames == [] {
        return false, "";
      }
      popped, frame := true, completedFrames[0];
      completedFrames := completedFrames[1..];
    }
  }

  lemma {:induction false} OverflowSticks(max: nat, p: Parser, data: string)
    ensures p.overflowed ==> Fed(max, p, data) == p
  {
    if data != "" {
      OverflowSticks(max, p, data[..|data| - 1]);
    }
  }

  lemma {:induction false} FedAppend(max: nat, p: Parser, a: string, b: string)
    ensures Fed(max, p, a + b) == Fed(max, Fed(max, p, a), b)
  {
    if b == "" {
      assert a + b == a;
    } else {
      FedAppend(max, p, a, b[..|b| - 1]);
      assert (a + b)[..|a + b| - 1] == a + b[..|b| - 1];
    }
  }

  /** What a session does with its parser: reads of any size, pops anywhere between them. */
  datatype Op = Read(data: string) | Pop

  datatype Run = Run(parser: Parser, popped: seq<string>, stream: string)

  function FeedRun(max: nat, r: Run, data: string): Run {
    r.(parser := Fed(max, r.parser, data), stream := r.stream + data)
  }

  function RunOps(max: nat, ops: seq<Op>): Run {
    if ops == [] then Run(EMPTY_PARSER, [], "")
    else
      var r := RunOps(max, ops[..|ops| - 1]);
      match ops[|ops| - 1]
      case Read(data) => FeedRun(max, r, data)
      case Pop =>
        if r.parser.completed == [] then r
        else r.(parser := r.parser.(completed := r.parser.completed[1..]),
                popped := r.popped + [r.parser.completed[0]])
  }

  /** Some newline-free piece of the stream is longer than the bound. */
  ghost predicate Exceeds(p: Pieces, max: nat) {
    |p.pending| > max || exists f <- p.complete :: |f| > max
  }

  ghost predicate Describes(max: nat, r: Run) {
    var p := Split(r.stream);
    && (r.parser.overflowed <==> Exceeds(p, max))
    && (!r.parser.overflowed ==> r.popped + r.parser.completed == p.complete && r.parser.current == p.pending)
    && (r.parser.overflowed ==> r.parser.completed == [] && r.parser.current == "")
    && r.popped <= p.complete
    && (forall f <- r.popped :: |f| <= max)
  }

  lemma DescribesStep(max: nat, r: Run, c: char)
    requires Describes(max, r)
    ensures Describes(max, r.(parser := Step(max, r.parser, c), stream := r.stream + [c]))
  {
    SplitSnoc(r.stream, c);
    var p := Split(r.stream);
    if c == '\n' {
      assert forall f <- Grow(p, c).complete :: f in p.complete || f == p.pending;
      assert p.pending in Grow(p, c).complete;
      assert forall f <- p.complete :: f in Grow(p, c).complete;
      if !r.parser.overflowed {
        assert r.popped + (r.parser.completed + [p.pending]) == p.complete + [p.pending];
      }
    }
  }

  lemma {:induction false} DescribesRead(max: nat, r: Run, data: string)
    requires Describes(max, r)
    ensures Describes(max, FeedRun(max, r, data))
  {
    if data == "" {
      assert FeedRun(max, r, data) == r;
    } else {
      var init, c := data[..|data| - 1], data[|data| - 1];
      DescribesRead(max, r, init);
      var q := FeedRun(max, r, init);
      DescribesStep(max, q, c);
      assert r.stream + data == q.stream + [c];
      assert FeedRun(max, r, data) == q.(parser := Step(max, q.parser, c), stream := q.stream + [c]);
    }
  }

  /** For every stream, every fragmentation and every placement of pops: the parser
      overflows exactly when some newline-free piece exceeds the bound; otherwise popped,
      queued and pending frames are exactly the newline split; and what was popped is a
      prefix of that split, within the bound, even when the stream overflows later. */
  lemma {:induction false} FragmentationIndependence(max: nat, ops: seq<Op>)
    ensures Describes(max, RunOps(max, ops))
  {
    if ops != [] {
      var r := RunOps(max, ops[..|ops| - 1]);
      FragmentationIndependence(max, ops[..|ops| - 1]);
      match ops[|ops| - 1]
      case Read(data) => DescribesRead(max, r, data);
      case Pop => DescribesPop(max, r);
    }
  }

  lemma DescribesPop(max: nat, r: Run)
    requires Describes(max, r)
    ensures r.parser.completed != [] ==>
              Describes(max, r.(parser := r.parser.(completed := r.parser.completed[1..]),
                                popped := r.popped + [r.parser.completed[0]]))
  {
    if r.parser.completed != [] {
      var f := r.parser.completed[0];
      assert r.popped + r.parser.completed == r.popped + [f] + r.parser.completed[1..];
      assert f in Split(r.stream).complete;
    }
  }

  /* ------------------------------------------------------------- the client's splitter */

  predicate IsBlank(c: char) {
    c == ' ' || c == '\t' || c == '\r' || c == '\n'
  }

  function TrimLeft(s: string): string {
    if s != "" && IsBlank(s[0]) then TrimLeft(s[1..]) else s
  }

  function TrimRight(s: string): string {
    if s != "" && IsBlank(s[|s| - 1]) then TrimRight(s[..|s| - 1]) else s
  }

  function Trim(s: string): string {
    TrimRight(TrimLeft(s))
  }

  lemma BlanksAre(c: char)
    ensures IsBlank(c) <==> c in " \t\r\n"
  {
    var blanks := " \t\r\n";
    assert blanks[0] == ' ' && blanks[1] == '\t' && blanks[2] == '\r' && blanks[3] == '\n';
  }

  lemma {:induction false} TrimLeftIs(blanks: string, rest: string)
    requires forall c <- blanks :: c in " \t\r\n"
    requires rest == "" || rest[0] !in " \t\r\n"
    ensures TrimLeft(blanks + rest) == rest
  {
    if blanks != "" {
      BlanksAre(blanks[0]);
      assert (blanks + rest)[1..] == blanks[1..] + rest;
      TrimLeftIs(blanks[1..], rest);
    } else {
      if rest != "" { BlanksAre(rest[0]); }
      assert blanks + rest == rest;
    }
  }

  lemma {:induction false} TrimRightIs(rest: string, blanks: string)
    requires forall c <- blanks :: c in " \t\r\n"
    requires rest == "" || rest[|rest| - 1] !in " \t\r\n"
    ensures TrimRight(rest + blanks) == rest
  {
    if blanks != "" {
      var n := |blanks| - 1;
      assert (rest + blanks)[..|rest| + n] == rest + blanks[..n] && blanks[n] in blanks;
      BlanksAre(blanks[n]);
      TrimRightIs(rest, blanks[..n]);
    } else {
      if rest != "" { BlanksAre(rest[|rest| - 1]); }
      assert rest + blanks == rest;
    }
  }

  function Shown(raw: string): seq<string> {
    if Trim(raw) == "" then [] else [Trim(raw)]
  }

  /** Trimming takes the blanks off both ends and nothing else, and a line is skipped exactly
      when nothing is left. */
  lemma TrimIs(before: string, core: string, after: string)
    requires (forall c <- before :: c in " \t\r\n") && forall c <- after :: c in " \t\r\n"
    requires core != "" ==> core[0] !in " \t\r\n" && core[|core| - 1] !in " \t\r\n"
    ensures Trim(before + (core + after)) == core
    ensures Shown(before + (core + after)) == if core == "" then [] else [core]
  {
    if core == "" {
      assert before + ("" + after) == (before + after) + "";
      TrimLeftIs(before + after, "");
    } else {
      TrimLeftIs(before, core + after);
      TrimRightIs(core, after);
    }
  }

  /** A line that trimming leaves alone. */
  predicate Tidy(line: string) {
    Shown(line) == [line]
  }

  lemma {:induction false} TrimLeftStarts(s: string)
    ensures TrimLeft(s) == "" || TrimLeft(s)[0] !in " \t\r\n"
  {
    if s != "" {
      BlanksAre(s[0]);
      if IsBlank(s[0]) {
        TrimLeftStarts(s[1..]);
      }
    }
  }

  lemma {:induction false} TrimRightEnds(s: string)
    ensures TrimRight(s) == "" || TrimRight(s)[|TrimRight(s)| - 1] !in " \t\r\n"
    ensures TrimRight(s) <= s
  {
    if s != "" {
      BlanksAre(s[|s| - 1]);
      if IsBlank(s[|s| - 1]) {
        TrimRightEnds(s[..|s| - 1]);
      }
    }
  }

  /** The lines that pass unchanged are those with something in them and no blank at
      either end. */
  lemma TidyIff(line: string)
    ensures Tidy(line) <==> line != "" && line[0] !in " \t\r\n" && line[|line| - 1] !in " \t\r\n"
  {
    if line != "" && line[0] !in " \t\r\n" && line[|line| - 1] !in " \t\r\n" {
      TrimIs("", line, "");
      assert "" + (line + "") == line;
    }
    TrimLeftStarts(line);
    TrimRightEnds(TrimLeft(line));
    if Tidy(line) {
      assert Shown(line)[0] == line == Trim(line);
    }
  }

  /** The lines a client keeps: trimmed, blanks dropped. */
  function Visible(lines: seq<string>): seq<string> {
    if lines == [] then [] else Visible(lines[..|lines| - 1]) + Shown(lines[|lines| - 1])
  }

  lemma VisibleSnoc(lines: seq<string>, l: string)
    ensures Visible(lines + [l]) == Visible(lines) + Shown(l)
  {
    assert (lines + [l])[..|lines|] == lines;
  }

  lemma {:induction false} VisibleAppend(a: seq<string>, b: seq<string>)
    ensures Visible(a + b) == Visible(a) + Visible(b)
  {
    hide Shown;
    if b == [] {
      assert a + b == a;
    } else {
      var init, l := b[..|b| - 1], b[|b| - 1];
      VisibleAppend(a, init);
      VisibleSnoc(a + init, l);
      VisibleSnoc(init, l);
      assert b == init + [l];
      Assoc(a, init, [l]);
      Assoc(Visible(a), Visible(init), Shown(l));
    }
  }

  lemma {:induction false} FirstIndexFinds(s: string, c: char)
    requires c in s
    ensures FirstIndex(s, c) < |s| && s[FirstIndex(s, c)] == c && c !in s[..FirstIndex(s, c)]
  {
    if s[0] != c {
      FirstIndexFinds(s[1..], c);
      assert s[..FirstIndex(s, c)] == [s[0]] + s[1..][..FirstIndex(s[1..], c)];
    }
  }

  lemma SplitTerminated(f: string, rest: string)
    requires '\n' !in f
    ensures Split((f + ['\n']) + rest) == Pieces([f] + Split(rest).complete, Split(rest).pending)
  {
    PlainSplit(f);
    SplitSnoc(f, '\n');
    assert [] + [f] == [f];
    SplitAppend(f + ['\n'], rest);
    assert "" + rest == rest;
  }

  lemma CutAt(s: string, i: nat)
    requires i < |s|
    ensures s == (s[..i] + [s[i]]) + s[i + 1..]
  {}

  lemma SplitAtFirst(s: string)
    requires '\n' in s
    ensures FirstIndex(s, '\n') < |s|
    ensures var i := FirstIndex(s, '\n');
            var q := Split(s[i + 1..]);
            Split(s) == Pieces([s[..i]] + q.complete, q.pending)
  {
    FirstIndexFinds(s, '\n');
    var i := FirstIndex(s, '\n');
    SplitTerminated(s[..i], s[i + 1..]);
    CutAt(s, i);
  }

  class LineReader {
    var readBuffer: string

    constructor ()
      ensures readBuffer == ""
    {
      readBuffer := "";
    }

    /** `pollIncomingMessages` after a read: find, cut, trim, skip blanks. */
    method Poll(data: string) returns (lines: seq<string>)
      modifies this
      ensures lines == Visible(Split(old(readBuffer) + data).complete)
      ensures readBuffer == Split(old(readBuffer) + data).pending
    {
      readBuffer := readBuffer + data;
      ghost var all := Split(readBuffer);
      ghost var raw: seq<string> := [];
      lines := [];
      assert raw + all.complete == all.complete;
      while '\n' in readBuffer
        invariant lines == Visible(raw)
        invariant all == Pieces(raw + Split(readBuffer).complete, Split(readBuffer).pending)
        decreases |readBuffer|
      {
        SplitAtFirst(readBuffer);
        var position := FirstIndex(readBuffer, '\n');
        var line := Trim(readBuffer[..position]);
        VisibleSnoc(raw, readBuffer[..position]);
        Assoc(raw, [readBuffer[..position]], Split(readBuffer[position + 1..]).complete);
        raw := raw + [readBuffer[..position]];
        readBuffer := readBuffer[position + 1..];
        if line == "" {
          continue;
        }
        lines := lines + [line];
      }
      PlainSplit(readBuffer);
      assert raw + [] == raw;
    }
  }

  datatype Reader = Reader(buffer: string, lines: seq<string>)

  function RunPolls(chunks: seq<string>): Reader {
    if chunks == [] then Reader("", [])
    else
      var r := RunPolls(chunks[..|chunks| - 1]);
      var p := Split(r.buffer + chunks[|chunks| - 1]);
      Reader(p.pending, r.lines + Visible(p.complete))
  }

  /** The client's lines depend on the stream alone, however it was cut into reads. */
  lemma {:induction false} PollsSeeStream(chunks: seq<string>)
    ensures RunPolls(chunks) == Reader(Split(Concat(chunks)).pending, Visible(Split(Concat(chunks)).complete))
  {
    if chunks != [] {
      var init, last := chunks[..|chunks| - 1], chunks[|chunks| - 1];
      PollsSeeStream(init);
      ConcatSnoc(init, last);
      assert chunks == init + [last];
      SplitAppend(Concat(init), last);
      var p := Split(Concat(init));
      VisibleAppend(p.complete, Split(p.pending + last).complete);
    }
  }

  /** On one stream within the bound, whatever the two fragmentations and the pops, the
      client's lines are the server's frames trimmed and without the blank ones. */
  lemma ClientAgreesWithServer(max: nat, ops: seq<Op>, chunks: seq<string>)
    requires Concat(chunks) == RunOps(max, ops).stream
    requires !RunOps(max, ops).parser.overflowed
    ensures RunPolls(chunks).lines == Visible(RunOps(max, ops).popped + RunOps(max, ops).parser.completed)
  {
    FragmentationIndependence(max, ops);
    PollsSeeStream(chunks);
  }

  lemma {:induction false} SplitWire(payloads: seq<string>)
    requires forall p <- payloads :: '\n' !in p
    ensures Split(Wire(payloads)) == Pieces(payloads, "")
  {
    if payloads != [] {
      var init, p := payloads[..|payloads| - 1], payloads[|payloads| - 1];
      SplitWire(init);
      SplitAppend(Wire(init), p);
      PlainSplit(p);
      assert "" + p == p && init + [] == init;
      SplitSnoc(Wire(init) + p, '\n');
      assert payloads == init + [p];
    }
  }

  lemma {:induction false} VisibleTrimmed(lines: seq<string>)
    requires forall l <- lines :: Tidy(l)
    ensures Visible(lines) == lines
  {
    if lines != [] {
      assert Tidy(lines[|lines| - 1]);
      VisibleTrimmed(lines[..|lines| - 1]);
      assert lines == lines[..|lines| - 1] + [lines[|lines| - 1]];
    }
  }

  /** Newline-free payloads each sent with a newline come out of the server's parser in
      order and unchanged, for every fragmentation, exactly when each is within the bound;
      and out of the client trimmed and without blank ones, so unchanged when tidy. */
  lemma FramingRoundTrip(max: nat, payloads: seq<string>, ops: seq<Op>, chunks: seq<string>)
    requires forall p <- payloads :: '\n' !in p
    requires RunOps(max, ops).stream == Wire(payloads) == Concat(chunks)
    ensures !RunOps(max, ops).parser.overflowed <==> forall p <- payloads :: |p| <= max
    ensures !RunOps(max, ops).parser.overflowed ==>
              RunOps(max, ops).popped + RunOps(max, ops).parser.completed == payloads
    ensures RunPolls(chunks).lines == Visible(payloads)
    ensures (forall p <- payloads :: Tidy(p)) ==> RunPolls(chunks).lines == payloads
  {
    SplitWire(payloads);
    FragmentationIndependence(max, ops);
    PollsSeeStream(chunks);
    if forall p <- payloads :: Tidy(p) {
      VisibleTrimmed(payloads);
    }
  }
}
