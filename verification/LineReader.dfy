/** Assembling lines from a descriptor one byte at a time, in a buffer of 100 bytes. */
module LineReader {

  const BUFFER_SIZE := 100

  /** What read finds once the bytes at hand are used up. */
  datatype End = WouldBlock | EndOfFile | Failure

  /** What one call comes to: no line yet, a line, the peer is gone, or an error. */
  datatype Outcome = NoLine | Line(text: seq<char>) | Closed | Failed

  /** One call: its outcome, the bytes left in the buffer, and how many bytes it took. */
  datatype Call = Call(outcome: Outcome, pending: seq<char>, used: nat)

  function ReadLine(pending: seq<char>, input: seq<char>, end: End): (c: Call)
    ensures c.used <= |input|
    decreases input
  {
    if input == [] then
      Call(match end { case WouldBlock => NoLine case EndOfFile => Closed case Failure => Failed }, pending, 0)
    else if input[0] == '\n' then Call(Line(pending), [], 1)
    else if |pending| + 1 >= BUFFER_SIZE then Call(NoLine, [], 1)
    else
      var c := ReadLine(pending + [input[0]], input[1..], end);
      c.(used := c.used + 1)
  }

  class ReadBuffer {
    var offset: nat
    const buf: array<char>

    constructor ()
      ensures Valid() && Pending() == [] && fresh(buf)
    {
      offset := 0;
      buf := new char[BUFFER_SIZE];
    }

    /** Between calls, and before every single read, there is room for one more byte. */
    ghost predicate Valid()
      reads this
    {
      buf.Length == BUFFER_SIZE && offset < BUFFER_SIZE
    }

    ghost function Pending(): seq<char>
      requires Valid()
      reads this, buf
    {
      buf[..offset]
    }

    /** The loop of nonblock_readline; a line is handed on as it stands in the buffer. */
    method NonblockReadline(input: seq<char>, end: End) returns (outcome: Outcome, used: nat)
      requires Valid()
      modifies this, buf
      ensures Valid()
      ensures Call(outcome, Pending(), used) == ReadLine(old(Pending()), input, end)
    {
      used := 0;
      ghost var start := Pending();
      while used < |input|
        invariant Valid() && used <= |input|
        invariant ReadLine(start, input, end)
               == var c := ReadLine(Pending(), input[used..], end); c.(used := c.used + used)
      {
        buf[offset] := input[used];
        ghost var before := buf[..offset];
        used := used + 1;
        assert input[used - 1..][1..] == input[used..];
        if buf[offset] == '\n' {
          outcome := Line(buf[..offset]);
          offset := 0;
          return;
        }
        offset := offset + 1;
        if offset >= BUFFER_SIZE {
          offset := 0;
          return NoLine, used;
        }
        assert Pending() == before + [input[used - 1]];
      }
      match end
      case WouldBlock => outcome := NoLine;
      case EndOfFile => outcome := Closed;
      case Failure => outcome := Failed;
    }
  }

  // ------------------------------------------------------- what a call comes to

  /** These bytes neither complete a line nor fill what is left of the 100 bytes. */
  predicate Quiet(pending: seq<char>, input: seq<char>) {
    '\n' !in input && |pending| + |input| < 100
  }

  lemma {:induction false} QuietCall(pending: seq<char>, input: seq<char>, end: End)
    requires Quiet(pending, input)
    ensures var c := ReadLine(pending, input, end);
            && c.pending == pending + input && c.used == |input|
            && c.outcome == if end == WouldBlock then NoLine else if end == EndOfFile then Closed else Failed
    decreases input
  {
    if input == [] {
      assert pending + input == pending;
    } else {
      QuietCall(pending + [input[0]], input[1..], end);
      assert pending + [input[0]] + input[1..] == pending + input;
    }
  }

  /** A call that took its last byte because the line or the buffer was complete. */
  predicate CutAt(pending: seq<char>, input: seq<char>, c: Call) {
    && c.pending == [] && 1 <= c.used <= |input| && c.used <= 100 - |pending| && '\n' !in input[..c.used - 1]
    && if input[c.used - 1] == '\n' then c.outcome == Line(pending + input[..c.used - 1])
       else c.outcome == NoLine && |pending| + c.used == 100
  }

  lemma {:induction false} FullCall(pending: seq<char>, input: seq<char>, end: End)
    requires |pending| < 100 && !Quiet(pending, input)
    ensures CutAt(pending, input, ReadLine(pending, input, end))
    decreases input
  {
    if input[0] != '\n' && |pending| + 1 < 100 {
      var c := ReadLine(pending + [input[0]], input[1..], end);
      FullCall(pending + [input[0]], input[1..], end);
      assert input[..c.used] == [input[0]] + input[1..][..c.used - 1];
      assert pending + [input[0]] + input[1..][..c.used - 1] == pending + input[..c.used];
    } else {
      assert pending + input[..0] == pending;
    }
  }

  /** EXACTLY WHAT A CALL COMES TO. The bytes that are there neither complete a line nor fill the buffer, and then they are
      kept and what read finds after them decides: nothing yet, the peer gone, or an error. Or a newline comes first and
      what stands before it is the line; or the buffer is full first and its 100 bytes are discarded. */
  lemma {:induction false} WhatACallComesTo(pending: seq<char>, input: seq<char>, end: End)
    requires |pending| < 100
    ensures var c := ReadLine(pending, input, end);
            && (c.outcome == Closed <==> Quiet(pending, input) && end == EndOfFile)
            && (c.outcome == Failed <==> Quiet(pending, input) && end == Failure)
            && (Quiet(pending, input) ==> c.pending == pending + input && c.used == |input|)
            && (Quiet(pending, input) && end == WouldBlock ==> c.outcome == NoLine)
            && (!Quiet(pending, input) ==> CutAt(pending, input, c))
  {
    if Quiet(pending, input) { QuietCall(pending, input, end); } else { FullCall(pending, input, end); }
  }

  /** Bytes that come to nothing yet and the rest in a later call come to the same as all of them in one. */
  lemma {:induction false} InTwoPieces(pending: seq<char>, first: seq<char>, rest: seq<char>, end: End)
    requires Quiet(pending, first)
    ensures ReadLine(pending, first, WouldBlock) == Call(NoLine, pending + first, |first|)
    ensures var c := ReadLine(pending + first, rest, end);
            ReadLine(pending, first + rest, end) == Call(c.outcome, c.pending, |first| + c.used)
    decreases first
  {
    if first == [] {
      assert pending + first == pending && first + rest == rest;
    } else {
      InTwoPieces(pending + [first[0]], first[1..], rest, end);
      assert pending + [first[0]] + first[1..] == pending + first;
      assert (first + rest)[1..] == first[1..] + rest;
    }
  }

  // ------------------------------------------------------- lines and the stream

  /** What is left of a piece without newline: each full buffer of it has been discarded. */
  function Kept(piece: seq<char>): (r: seq<char>) {
    piece[|piece| - |piece| % BUFFER_SIZE..]
  }

  function Last(pieces: seq<seq<char>>): seq<char>
    requires pieces != []
  {
    pieces[|pieces| - 1]
  }

  /** The last piece goes on. */
  function Grow(pieces: seq<seq<char>>, more: seq<char>): (r: seq<seq<char>>)
    requires pieces != []
    ensures |r| == |pieces| && Last(r) == Last(pieces) + more
  {
    pieces[|pieces| - 1 := Last(pieces) + more]
  }

  /** The stream split at its newlines; the last piece is still unfinished. */
  function Pieces(stream: seq<char>): (p: seq<seq<char>>)
    ensures p != []
    decreases stream
  {
    if stream == [] then [[]] else
      var p := Pieces(stream[..|stream| - 1]);
      var b := stream[|stream| - 1];
      if b == '\n' then p + [[]] else Grow(p, [b])
  }

  function Join(pieces: seq<seq<char>>): seq<char>
    requires pieces != []
    decreases |pieces|
  {
    var n := |pieces| - 1;
    if n == 0 then pieces[0] else Join(pieces[..n]) + ['\n'] + pieces[n]
  }

  ghost predicate NewlineFree(pieces: seq<seq<char>>) {
    forall i | 0 <= i < |pieces| :: '\n' !in pieces[i]
  }

  lemma {:induction false} JoinGrow(p: seq<seq<char>>, more: seq<char>)
    requires p != []
    ensures Join(Grow(p, more)) == Join(p) + more
  {
    assert Grow(p, more)[..|p| - 1] == p[..|p| - 1];
  }

  /** Joining the pieces gives the stream back. */
  lemma {:induction false} JoinOfPieces(stream: seq<char>)
    ensures NewlineFree(Pieces(stream)) && Join(Pieces(stream)) == stream
    decreases stream
  {
    if stream != [] {
      var front, b := stream[..|stream| - 1], stream[|stream| - 1];
      JoinOfPieces(front);
      var p := Pieces(front);
      if b == '\n' {
        assert (p + [[]])[..|p|] == p;
      } else {
        JoinGrow(p, [b]);
      }
      assert stream == front + [b];
    }
  }

  lemma {:induction false} PiecesSnoc(stream: seq<char>, b: char)
    ensures Pieces(stream + [b]) == if b == '\n' then Pieces(stream) + [[]] else Grow(Pieces(stream), [b])
  {
    assert (stream + [b])[..|stream|] == stream;
  }

  lemma {:induction false} GrowTwice(p: seq<seq<char>>, first: seq<char>, second: seq<char>)
    requires p != []
    ensures Grow(Grow(p, first), second) == Grow(p, first + second)
  {
    assert Last(p) + first + second == Last(p) + (first + second);
  }

  lemma {:induction false} LastPieceGrows(stream: seq<char>, more: seq<char>)
    requires '\n' !in more
    ensures Pieces(stream + more) == Grow(Pieces(stream), more)
    decreases more
  {
    if more == [] {
      assert stream + more == stream;
      assert Last(Pieces(stream)) + [] == Last(Pieces(stream));
    } else {
      var front, b := more[..|more| - 1], more[|more| - 1];
      LastPieceGrows(stream, front);
      PiecesSnoc(stream + front, b);
      GrowTwice(Pieces(stream), front, [b]);
      assert more == front + [b];
      assert stream + more == (stream + front) + [b];
    }
  }

  lemma {:induction false} GrowEmpty(p: seq<seq<char>>, piece: seq<char>)
    ensures Grow(p + [[]], piece) == p + [piece]
  {
    assert [] + piece == piece;
  }

  /** And splitting joined pieces gives the pieces back: Pieces is the only way to split at newlines. */
  lemma {:induction false} PiecesOfJoin(pieces: seq<seq<char>>)
    requires pieces != [] && NewlineFree(pieces)
    ensures Pieces(Join(pieces)) == pieces
    decreases |pieces|
  {
    var n := |pieces| - 1;
    if n == 0 {
      LastPieceGrows([], pieces[0]);
      GrowEmpty([], pieces[0]);
      assert [] + pieces[0] == pieces[0];
      assert [] + [pieces[0]] == pieces;
      assert Pieces([]) == [] + [[]];
    } else {
      var front := pieces[..n];
      PiecesOfJoin(front);
      PiecesSnoc(Join(front), '\n');
      LastPieceGrows(Join(front) + ['\n'], pieces[n]);
      GrowEmpty(front, pieces[n]);
      assert front + [pieces[n]] == pieces;
    }
  }

  function LinesOf(pieces: seq<seq<char>>): seq<seq<char>>
    requires pieces != []
  {
    seq(|pieces| - 1, i requires 0 <= i < |pieces| - 1 => Kept(pieces[i]))
  }

  /** The lines of a stream: every finished piece, without its full buffers. */
  function Lines(stream: seq<char>): seq<seq<char>> {
    LinesOf(Pieces(stream))
  }

  lemma {:induction false} KeptSnoc(piece: seq<char>, b: char)
    ensures Kept(piece + [b]) == if |Kept(piece)| + 1 >= BUFFER_SIZE then [] else Kept(piece) + [b]
    ensures |Kept(piece)| < BUFFER_SIZE
  {
    var r := |piece| % BUFFER_SIZE;
    assert (|piece| + 1) % BUFFER_SIZE == if r + 1 == BUFFER_SIZE then 0 else r + 1;
  }

  /** What a stream has come to: the lines handed on and the bytes still in the buffer. */
  datatype Seen = Seen(lines: seq<seq<char>>, pending: seq<char>)

  function SeenOf(stream: seq<char>): Seen {
    SeenOfPieces(Pieces(stream))
  }

  function SeenOfPieces(p: seq<seq<char>>): Seen
    requires p != []
  {
    Seen(LinesOf(p), Kept(Last(p)))
  }

  function Byte(s: Seen, b: char): Seen {
    if b == '\n' then Seen(s.lines + [s.pending], [])
    else Seen(s.lines, if |s.pending| + 1 >= BUFFER_SIZE then [] else s.pending + [b])
  }

  function Bytes(s: Seen, bytes: seq<char>): Seen
    decreases bytes
  {
    if bytes == [] then s else Bytes(Byte(s, bytes[0]), bytes[1..])
  }

  lemma FinishPiece(p: seq<seq<char>>)
    requires p != []
    ensures LinesOf(p + [[]]) == LinesOf(p) + [Kept(Last(p))]
    ensures Kept(Last(p + [[]])) == []
  {
  }

  lemma GrowPiece(p: seq<seq<char>>, b: char)
    requires p != []
    ensures LinesOf(Grow(p, [b])) == LinesOf(p)
  {
  }

  lemma {:induction false} ByteTaken(p: seq<seq<char>>, b: char)
    requires p != []
    ensures SeenOfPieces(if b == '\n' then p + [[]] else Grow(p, [b])) == Byte(SeenOfPieces(p), b)
  {
    if b == '\n' { FinishPiece(p); } else { GrowPiece(p, b); }
    KeptSnoc(Last(p), b);
  }

  /** A view of streams that follows each byte follows any run of bytes. */
  lemma {:induction false} FollowsBytes(seen: seq<char> -> Seen, stream: seq<char>, bytes: seq<char>)
    requires forall t, b {:trigger seen(t + [b])} :: seen(t + [b]) == Byte(seen(t), b)
    ensures Bytes(seen(stream), bytes) == seen(stream + bytes)
    decreases bytes
  {
    if bytes == [] {
      assert stream + bytes == stream;
    } else {
      assert seen(stream + [bytes[0]]) == Byte(seen(stream), bytes[0]);
      FollowsBytes(seen, stream + [bytes[0]], bytes[1..]);
      assert stream + bytes == (stream + [bytes[0]]) + bytes[1..];
    }
  }

  /** Taking bytes one at a time cuts the stream as Lines does. */
  lemma {:induction false} BytesCutStream(stream: seq<char>, bytes: seq<char>)
    ensures Bytes(SeenOf(stream), bytes) == SeenOf(stream + bytes)
  {
    forall t, b ensures SeenOf(t + [b]) == Byte(SeenOf(t), b) {
      PiecesSnoc(t, b);
      ByteTaken(Pieces(t), b);
    }
    FollowsBytes(SeenOf, stream, bytes);
  }

  lemma {:induction false} BytesThen(s: Seen, first: seq<char>, second: seq<char>)
    ensures Bytes(s, first + second) == Bytes(Bytes(s, first), second)
    decreases first
  {
    if first == [] {
      assert first + second == second;
    } else {
      assert (first + second)[1..] == first[1..] + second;
      BytesThen(Byte(s, first[0]), first[1..], second);
    }
  }

  lemma {:induction false} BufferNeverFull(s: Seen, bytes: seq<char>)
    requires |s.pending| < BUFFER_SIZE
    ensures |Bytes(s, bytes).pending| < BUFFER_SIZE
    decreases bytes
  {
    if bytes != [] { BufferNeverFull(Byte(s, bytes[0]), bytes[1..]); }
  }

  function TextOf(outcome: Outcome): seq<seq<char>> {
    if outcome.Line? then [outcome.text] else []
  }

  /** One call takes some bytes and hands on exactly the line they complete. */
  lemma {:induction false} CallTakesBytes(lines: seq<seq<char>>, pending: seq<char>, input: seq<char>, end: End)
    ensures var c := ReadLine(pending, input, end);
            Bytes(Seen(lines, pending), input[..c.used]) == Seen(lines + TextOf(c.outcome), c.pending)
    decreases input
  {
    var c := ReadLine(pending, input, end);
    if input != [] {
      var s := Byte(Seen(lines, pending), input[0]);
      assert input[..c.used][1..] == input[1..][..c.used - 1];
      if input[0] != '\n' && |pending| + 1 < BUFFER_SIZE {
        CallTakesBytes(lines, pending + [input[0]], input[1..], end);
      } else {
        assert lines + [] == lines;
      }
    } else {
      assert lines + [] == lines;
    }
  }

  // ------------------------------------------------------------- any schedule

  /** Bytes arrive at the descriptor, or the loop calls the reader on whatever has arrived. */
  datatype Event = Arrive(bytes: seq<char>) | Serve(end: End)

  datatype Connection = Connection(pending: seq<char>, unread: seq<char>, lines: seq<seq<char>>)

  function Step(k: Connection, e: Event): Connection {
    match e
    case Arrive(bytes) => k.(unread := k.unread + bytes)
    case Serve(end) =>
      var c := ReadLine(k.pending, k.unread, end);
      Connection(c.pending, k.unread[c.used..], k.lines + TextOf(c.outcome))
  }

  function Run(k: Connection, events: seq<Event>): Connection
    decreases events
  {
    if events == [] then k else Run(Step(k, events[0]), events[1..])
  }

  function Arrived(events: seq<Event>): seq<char>
    decreases events
  {
    if events == [] then [] else (if events[0].Arrive? then events[0].bytes else []) + Arrived(events[1..])
  }

  function Progress(k: Connection): Seen {
    Seen(k.lines, k.pending)
  }

  lemma {:induction false} StepTakes(k: Connection, e: Event) returns (taken: seq<char>)
    ensures Progress(Step(k, e)) == Bytes(Progress(k), taken)
    ensures k.unread + (if e.Arrive? then e.bytes else []) == taken + Step(k, e).unread
  {
    match e
    case Arrive(bytes) =>
      taken := [];
    case Serve(end) =>
      taken := k.unread[..ReadLine(k.pending, k.unread, end).used];
      CallTakesBytes(k.lines, k.pending, k.unread, end);
  }

  lemma {:induction false} RunTakes(k: Connection, events: seq<Event>) returns (taken: seq<char>)
    ensures Progress(Run(k, events)) == Bytes(Progress(k), taken)
    ensures k.unread + Arrived(events) == taken + Run(k, events).unread
    decreases events
  {
    if events == [] {
      taken := [];
    } else {
      var k' := Step(k, events[0]);
      var first := StepTakes(k, events[0]);
      var rest := RunTakes(k', events[1..]);
      taken := first + rest;
      BytesThen(Progress(k), first, rest);
      Regroup(k.unread, if events[0].Arrive? then events[0].bytes else [], Arrived(events[1..]), first,
              k'.unread, rest, Run(k', events[1..]).unread);
    }
  }

  lemma {:induction false} Regroup(a: seq<char>, b: seq<char>, c: seq<char>, d: seq<char>, e: seq<char>, f: seq<char>, g: seq<char>)
    requires a + b == d + e && e + c == f + g
    ensures a + (b + c) == (d + f) + g
  {
    calc {
      a + (b + c);
      (a + b) + c;
      (d + e) + c;
      d + (e + c);
      d + (f + g);
      (d + f) + g;
    }
  }

  const NEW_CONNECTION := Connection([], [], [])

  /** LINES DO NOT DEPEND ON CHUNKING: however the bytes arrive and whenever the loop comes by, the lines handed
      on are those of the bytes taken so far, and once nothing is left unread, those of everything that arrived. */
  lemma {:induction false} ChunkingDoesNotMatter(events: seq<Event>)
    ensures var k := Run(NEW_CONNECTION, events);
            && |k.unread| <= |Arrived(events)|
            && k.lines == Lines(Arrived(events)[..|Arrived(events)| - |k.unread|])
            && |k.pending| < BUFFER_SIZE
            && (k.unread == [] ==> k.lines == Lines(Arrived(events)))
  {
    var k := Run(NEW_CONNECTION, events);
    var taken := RunTakes(NEW_CONNECTION, events);
    var arrived := Arrived(events);
    assert [] + arrived == arrived;
    assert arrived[..|taken|] == taken;
    assert SeenOf([]) == Seen([], []);
    BytesCutStream([], taken);
    assert [] + taken == taken;
    BufferNeverFull(Seen([], []), taken);
    if k.unread == [] { assert taken == arrived; }
  }
}
