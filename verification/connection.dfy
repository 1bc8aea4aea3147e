/** One direction of a connection (src/connection.cpp): the write queue at one end, the line
    reader at the other. */
module Connection {

  // ---------------------------------------------------------------- lines

  predicate IsLine(s: string) { s != "" && '\n' !in s }

  function Frame(line: string): string { line + "\n" }

  function Frames(lines: seq<string>): string {
    if lines == [] then "" else Frame(lines[0]) + Frames(lines[1..])
  }

  function Newline(s: string): (i: nat)
    ensures i <= |s| && (i < |s| ==> s[i] == '\n') && '\n' !in s[..i]
  {
    if s == "" || s[0] == '\n' then 0 else 1 + Newline(s[1..])
  }

  /** The lines that a reader of `s` handles: the complete ones, without the empty ones. */
  function Lines(s: string): (lines: seq<string>)
    ensures forall l :: l in lines ==> IsLine(l)
  {
    var i := Newline(s);
    if i == |s| then [] else (if i == 0 then [] else [s[..i]]) + Lines(s[i + 1..])
  }

  /** What it keeps in its buffer: everything after the last newline. */
  function Rest(s: string): (r: string)
    ensures '\n' !in r
  {
    var i := Newline(s);
    if i == |s| then s else Rest(s[i + 1..])
  }

  lemma {:induction false} NewlineIs(s: string, i: nat)
    requires i < |s| && s[i] == '\n' && '\n' !in s[..i]
    ensures Newline(s) == i
  {
    if i > 0 {
      assert s[0] == s[..i][0];
      assert s[1..][..i - 1] == s[..i][1..];
      NewlineIs(s[1..], i - 1);
    }
  }

  lemma NewlineAppend(s: string, t: string)
    requires Newline(s) < |s|
    ensures Newline(s + t) == Newline(s) && (s + t)[..Newline(s)] == s[..Newline(s)]
    ensures (s + t)[Newline(s) + 1..] == s[Newline(s) + 1..] + t
  {
    assert (s + t)[..Newline(s)] == s[..Newline(s)];
    NewlineIs(s + t, Newline(s));
  }

  lemma LinesStep(s: string)
    requires Newline(s) < |s|
    ensures Lines(s) == (if Newline(s) == 0 then [] else [s[..Newline(s)]]) + Lines(s[Newline(s) + 1..])
    ensures Rest(s) == Rest(s[Newline(s) + 1..])
  {
    hide Newline;
  }

  lemma NoLine(s: string)
    requires Newline(s) == |s|
    ensures Lines(s) == [] && Rest(s) == s
  {
  }

  /** Reading in two parts is reading the whole. */
  lemma {:induction false} LinesAppend(s: string, t: string)
    ensures Lines(s + t) == Lines(s) + Lines(Rest(s) + t)
    ensures Rest(s + t) == Rest(Rest(s) + t)
  {
    hide Lines, Rest;
    var i := Newline(s);
    if i == |s| {
      NoLine(s);
    } else {
      LinesAppend(s[i + 1..], t);
      NewlineAppend(s, t);
      LinesStep(s);
      LinesStep(s + t);
    }
  }

  /** Framed lines come out as they went in, and a last, incomplete frame does not. */
  lemma {:induction false} LinesOfFrames(lines: seq<string>, tail: string)
    requires forall l :: l in lines ==> IsLine(l)
    requires '\n' !in tail
    ensures Lines(Frames(lines) + tail) == lines && Rest(Frames(lines) + tail) == tail
  {
    hide Lines, Rest, Newline;
    if lines == [] {
      assert Frames(lines) + tail == tail;
      NoLine(tail);
    } else {
      var frame := Frame(lines[0]);
      var s := Frames(lines) + tail;
      assert s == frame + (Frames(lines[1..]) + tail);
      assert IsLine(lines[0]);
      NewlineOfFrame(lines[0]);
      NewlineAppend(frame, Frames(lines[1..]) + tail);
      LinesOfFrames(lines[1..], tail);
      assert s[|lines[0]| + 1..] == Frames(lines[1..]) + tail;
      LinesStep(s);
    }
  }

  lemma NewlineOfFrame(line: string)
    requires '\n' !in line
    ensures Newline(Frame(line)) == |line| && Frame(line)[..|line|] == line
  {
    assert Frame(line)[..|line|] == line;
    NewlineIs(Frame(line), |line|);
  }

  lemma {:induction false} FramesAppend(lines: seq<string>, line: string)
    ensures Frames(lines + [line]) == Frames(lines) + Frame(line)
  {
    if lines == [] {
      assert lines + [line] == [line];
    } else {
      FramesAppend(lines[1..], line);
      assert (lines + [line])[1..] == lines[1..] + [line];
    }
  }

  // ---------------------------------------------------------------- the link

  /** A sender's history: the lines given to it, those written in full, and the bytes the
      socket took, which may end in part of the line being written. */
  datatype Sent = Sent(given: seq<string>, written: nat, wire: string)

  ghost predicate Orderly(s: Sent) {
    && (forall l :: l in s.given ==> IsLine(l))
    && s.written <= |s.given|
    && Frames(s.given[..s.written]) <= s.wire
    && var part := s.wire[|Frames(s.given[..s.written])|..];
       if s.written == |s.given| then part == "" else part < Frame(s.given[s.written])
  }

  /** Reading any part of what is on the wire gives a prefix of what was sent; reading all of
      it gives every line that was written in full and no other. */
  lemma ReceivesInOrder(s: Sent, arrived: string)
    requires Orderly(s) && arrived <= s.wire
    ensures Lines(arrived) <= s.given
    ensures arrived == s.wire ==> Lines(arrived) == s.given[..s.written]
  {
    var done := s.given[..s.written];
    var part := s.wire[|Frames(done)|..];
    assert s.wire == Frames(done) + part;
    assert s.written < |s.given| ==> s.given[s.written] in s.given && part <= s.given[s.written];
    LinesOfFrames(done, part);
    assert s.wire == arrived + s.wire[|arrived|..];
    LinesAppend(arrived, s.wire[|arrived|..]);
    assert Lines(arrived) <= Lines(s.wire);
  }

  class Sender {
    var queue: seq<string>
    var writing: bool
    var peerId: string
    ghost var history: Sent
    ghost var failed: bool   // a write has failed; none is under way any more

    ghost predicate Valid()
      reads this
    {
      && Orderly(history)
      && queue == history.given[history.written..]
      && writing == (queue != [])
      && (failed ==> queue != [])
      && (!failed ==> history.wire == Frames(history.given[..history.written]))
    }

    /** `start`: our own announcement goes first, then the list of peers. */
    constructor (announce: string, peerList: string)
      requires IsLine(announce) && IsLine(peerList)
      ensures Valid() && history.given == [announce, peerList] && peerId == "" && !failed
    {
      queue, writing, peerId := [announce], true, "";
      history, failed := Sent([announce], 0, ""), false;
      new;
      Send(peerList);
    }

    /** Queue a line; writing starts if nothing is queued before it. */
    method Send(line: string)
      requires Valid() && IsLine(line)
      modifies this
      ensures Valid() && history == old(history).(given := old(history).given + [line])
      ensures failed == old(failed) && peerId == old(peerId)
    {
      var startWrite := queue == [];
      queue := queue + [line];
      history := history.(given := history.given + [line]);
      assert history.given[..history.written] == old(history).given[..history.written];
      if startWrite { writing := true; }
    }

    /** The write of the first queued line completes.  On an error `taken` of its bytes may
        have gone out; the connection is closed and the queue stays as it is. */
    method WriteDone(ok: bool, taken: nat)
      requires Valid() && writing && !failed
      requires taken <= |queue[0]|
      modifies this
      ensures Valid() && history.given == old(history).given && peerId == old(peerId)
      ensures failed == !ok
      ensures history.written == old(history).written + if ok then 1 else 0
      ensures queue == if ok then old(queue)[1..] else old(queue)
    {
      ghost var n := history.written;
      assert history.given[n] == queue[0];
      if !ok {
        history := history.(wire := history.wire + Frame(queue[0])[..taken]);
        failed := true;
        return;
      }
      FramesAppend(history.given[..n], queue[0]);
      assert history.given[..n + 1] == history.given[..n] + [queue[0]];
      history := history.(written := n + 1, wire := history.wire + Frame(queue[0]));
      queue := queue[1..];
      if queue == [] { writing := false; }
    }
  }

  /** Whatever of a link's bytes has arrived, the first line handled, if any, is the sender's
      own announcement, and all lines handled are the first ones it sent, in order. */
  lemma AnnouncementComesFirst(s: Sent, announce: string, arrived: string)
    requires Orderly(s) && s.given != [] && s.given[0] == announce && arrived <= s.wire
    ensures Lines(arrived) == [] || Lines(arrived)[0] == announce
    ensures Lines(arrived) <= s.given
  {
    ReceivesInOrder(s, arrived);
  }

  class LineReader {
    var buffer: string
    var handled: seq<string>
    ghost var arrived: string

    ghost predicate Valid()
      reads this
    {
      buffer == Rest(arrived) && handled == Lines(arrived)
    }

    constructor ()
      ensures Valid() && arrived == ""
    {
      buffer, handled, arrived := "", [], "";
    }

    /** However the bytes are cut into segments, the lines handled are those of the bytes. */
    method Receive(segment: string)
      requires Valid()
      modifies this
      ensures Valid() && arrived == old(arrived) + segment
    {
      hide Lines, Rest;
      LinesAppend(arrived, segment);
      arrived := arrived + segment;
      buffer := buffer + segment;
      while Newline(buffer) < |buffer|
        invariant handled + Lines(buffer) == Lines(arrived)
        invariant Rest(buffer) == Rest(arrived)
        invariant arrived == old(arrived) + segment
        decreases |buffer|
      {
        LinesStep(buffer);
        var line := buffer[..Newline(buffer)];
        buffer := buffer[Newline(buffer) + 1..];
        if line != "" { handled := handled + [line]; }
      }
      NoLine(buffer);
    }
  }
}
