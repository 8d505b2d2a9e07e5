/** `BufferedLineReader` of `rootfs-init/sandstorm-agent.py`.

    The reader must frame a byte stream the same way however the network cut
    it up. Its methods are stated over what is left of the stream -- the buffer
    and everything still to be received -- and never mention a receive. */
module LineReader {
  import opened Wrappers

  type Bytes = seq<Byte>

  const NEWLINE: Byte := 10

  /** Where the first newline is, or -1, as `bytearray.find` answers. */
  function Find(s: Bytes): (i: int)
    ensures -1 <= i < |s|
    ensures i >= 0 ==> s[i] == NEWLINE && NEWLINE !in s[..i]
    ensures i < 0 ==> NEWLINE !in s
  {
    if s == [] then -1
    else if s[0] == NEWLINE then 0
    else
      var i := Find(s[1..]);
      assert s == [s[0]] + s[1..];
      assert i >= 0 ==> s[..i + 1] == [s[0]] + s[1..][..i];
      if i < 0 then -1 else i + 1
  }

  function Flatten(chunks: seq<Bytes>): Bytes {
    if chunks == [] then [] else chunks[0] + Flatten(chunks[1..])
  }

  /** The stream up to its first newline, or all of it if it has none. */
  function NextLine(s: Bytes): (line: Bytes)
    ensures line <= s && (s != [] ==> line != [])
  {
    if Find(s) >= 0 then s[..Find(s) + 1] else s
  }

  lemma {:induction false} FindIsFirst(s: Bytes, i: nat)
    requires i < |s| && s[i] == NEWLINE && NEWLINE !in s[..i]
    ensures Find(s) == i
  {
    if i > 0 {
      assert s[0] == s[..i][0];
      assert s[1..][..i - 1] == s[..i][1..];
      FindIsFirst(s[1..], i - 1);
    }
  }

  /** Finding a newline early in the stream finds the stream's first. */
  lemma FindInPrefix(a: Bytes, b: Bytes)
    ensures Find(a) >= 0 ==> Find(a + b) == Find(a)
    ensures Find(a) >= 0 ==> NextLine(a + b) == a[..Find(a) + 1] == NextLine(a)
  {
    var i := Find(a);
    if i >= 0 {
      assert (a + b)[..i] == a[..i];
      FindIsFirst(a + b, i);
      assert (a + b)[..i + 1] == a[..i + 1];
    }
  }

  /** The socket: what it will hand over, receive by receive. Every one of
      them has something in it; an empty one is the end of the stream. */
  class Conn {
    var incoming: seq<Bytes>

    ghost predicate Valid()
      reads this
    {
      forall i :: 0 <= i < |incoming| ==> incoming[i] != []
    }

    function Stream(): Bytes
      reads this
    {
      Flatten(incoming)
    }

    constructor (incoming: seq<Bytes>)
      requires forall i :: 0 <= i < |incoming| ==> incoming[i] != []
      ensures Valid() && Stream() == Flatten(incoming)
    {
      this.incoming := incoming;
    }

    /** At most `max` bytes, and none only at the end of the stream. */
    method Recv(max: nat) returns (chunk: Bytes)
      requires Valid() && max > 0
      modifies this
      ensures Valid()
      ensures chunk == [] <==> old(Stream()) == []
      ensures old(Stream()) == chunk + Stream()
      ensures |chunk| <= max
    {
      if incoming == [] {
        return [];
      }
      var first, rest := incoming[0], incoming[1..];
      if |first| <= max {
        chunk, incoming := first, rest;
      } else {
        chunk, incoming := first[..max], [first[max..]] + rest;
        assert incoming[1..] == rest;
        assert first == first[..max] + first[max..];
      }
    }
  }

  class BufferedLineReader {
    const conn: Conn
    var buf: Bytes

    ghost predicate Valid()
      reads this, conn
    {
      conn.Valid()
    }

    /** Everything not yet returned: what is buffered, then what is unread. */
    function Remaining(): Bytes
      reads this, conn
    {
      buf + conn.Stream()
    }

    constructor (conn: Conn)
      requires conn.Valid()
      ensures Valid() && this.conn == conn && Remaining() == conn.Stream()
    {
      this.conn := conn;
      this.buf := [];
    }

    /** One complete line, or what is left at the end of the stream. */
    method ReadLine() returns (line: Bytes)
      requires Valid()
      modifies this, conn
      ensures Valid()
      ensures line == NextLine(old(Remaining()))
      ensures old(Remaining()) == line + Remaining()
    {
      while true
        invariant Valid() && Remaining() == old(Remaining())
        decreases |conn.Stream()|
      {
        var nl := Find(buf);
        if nl >= 0 {
          line := TakeLine(nl);
          return;
        }
        var chunk := conn.Recv(4096);
        if chunk == [] {
          assert Remaining() == buf == old(Remaining());
          line, buf := buf, [];
          return;
        }
        assert old(Remaining()) == buf + (chunk + conn.Stream()) == (buf + chunk) + conn.Stream();
        buf := buf + chunk;
      }
    }

    /** Cut the buffer after its first newline, at `nl`. */
    method TakeLine(nl: nat) returns (line: Bytes)
      requires Valid() && nl == Find(buf)
      modifies this
      ensures Valid() && line == NextLine(old(Remaining()))
      ensures Find(old(Remaining())) == nl && old(Remaining()) == line + Remaining()
    {
      FindInPrefix(buf, conn.Stream());
      line := buf[..nl + 1];
      buf := buf[nl + 1..];
      assert old(buf) == line + buf;
      assert old(Remaining()) == line + Remaining();
    }

    /** Whether the buffer already holds a complete line. */
    method HasCompleteLine() returns (b: bool)
      ensures b <==> NEWLINE in buf
    {
      b := Find(buf) >= 0;
    }

    /** The next complete line if one is buffered; never touches the socket. */
    method TryReadLine() returns (line: Option<Bytes>)
      requires Valid()
      modifies this
      ensures Valid()
      ensures NEWLINE in old(buf) <==> line.Some?
      ensures line == None ==> Remaining() == old(Remaining())
      ensures line.Some? ==> Find(old(Remaining())) >= 0 && line.value == NextLine(old(Remaining()))
      ensures line.Some? ==> old(Remaining()) == line.value + Remaining()
    {
      var nl := Find(buf);
      if nl < 0 {
        return None;
      }
      var cut := TakeLine(nl);
      line := Some(cut);
    }
  }

  // ---- the framing of a whole stream -------------------------------------------

  /** The stream cut after each newline. */
  function Lines(s: Bytes): seq<Bytes> {
    if s == [] then [] else [NextLine(s)] + Lines(s[|NextLine(s)|..])
  }

  /** One newline, at the end. */
  predicate Complete(line: Bytes) {
    line != [] && line[|line| - 1] == NEWLINE && NEWLINE !in line[..|line| - 1]
  }

  /** A list of lines with only the last one, if any, left unfinished. */
  predicate Framed(lines: seq<Bytes>) {
    forall i :: 0 <= i < |lines| ==>
                  Complete(lines[i]) || (i == |lines| - 1 && lines[i] != [] && NEWLINE !in lines[i])
  }

  /** `Lines` cuts the stream and loses nothing of it. */
  lemma {:induction false} LinesFrameTheStream(s: Bytes)
    ensures Framed(Lines(s)) && Flatten(Lines(s)) == s
  {
    if s != [] {
      var line, rest := NextLine(s), s[|NextLine(s)|..];
      LinesFrameTheStream(rest);
      assert Lines(s) == [line] + Lines(rest);
      assert Lines(s)[1..] == Lines(rest);
      if Find(s) >= 0 {
        assert line[..|line| - 1] == s[..Find(s)];
      } else {
        assert rest == [];
      }
      forall i | 0 < i < |Lines(s)|
        ensures Lines(s)[i] == Lines(rest)[i - 1]
      {}
    }
  }

  /** ... and is the only way to cut it like that. */
  lemma {:induction false} FramingIsUnique(lines: seq<Bytes>)
    requires Framed(lines)
    ensures Lines(Flatten(lines)) == lines
  {
    if lines != [] {
      var first, rest := lines[0], lines[1..];
      forall i | 0 <= i < |rest| ensures rest[i] == lines[i + 1] {}
      FramingIsUnique(rest);
      var s := Flatten(lines);
      assert s == first + Flatten(rest);
      if Complete(first) {
        CompleteIsFirst(first);
        FindInPrefix(first, Flatten(rest));
      } else {
        assert rest == [] && s == first;
      }
      assert NextLine(s) == first;
      assert s[|first|..] == Flatten(rest);
    }
  }

  lemma CompleteIsFirst(line: Bytes)
    requires Complete(line)
    ensures Find(line) == |line| - 1
  {
    FindIsFirst(line, |line| - 1);
  }

  // ---- any mix of calls ---------------------------------------------------------

  /** A call and what it answered. */
  datatype Call = Read(line: Bytes) | Try(found: Option<Bytes>)

  function Answer(c: Call): Bytes {
    match c
    case Read(line) => line
    case Try(None) => []
    case Try(Some(line)) => line
  }

  /** What the methods above promise of a call made with `rem` remaining. A
      `TryReadLine` may find nothing: that depends on what has arrived. */
  predicate Promised(rem: Bytes, c: Call) {
    match c
    case Read(line) => line == NextLine(rem)
    case Try(None) => true
    case Try(Some(line)) => Find(rem) >= 0 && line == NextLine(rem)
  }

  /** Calls made one after another from `rem` on. */
  predicate Run(rem: Bytes, calls: seq<Call>) {
    calls == [] || (Promised(rem, calls[0]) && Run(rem[|Answer(calls[0])|..], calls[1..]))
  }

  /** The lines handed out, in order; an empty answer is not a line. */
  function Returned(calls: seq<Call>): seq<Bytes> {
    if calls == [] then []
    else (if Answer(calls[0]) == [] then [] else [Answer(calls[0])]) + Returned(calls[1..])
  }

  function Left(rem: Bytes, calls: seq<Call>): Bytes
    requires Run(rem, calls)
  {
    if calls == [] then rem else Left(rem[|Answer(calls[0])|..], calls[1..])
  }

  function Reads(calls: seq<Call>): nat {
    if calls == [] then 0 else (if calls[0].Read? then 1 else 0) + Reads(calls[1..])
  }

  /** However the stream arrives and however the two calls are mixed, the
      lines handed out are the stream's own, in order from its first, and
      nothing is lost or repeated between them and what remains. */
  lemma {:induction false} FramingIndependentOfChunks(rem: Bytes, calls: seq<Call>)
    requires Run(rem, calls)
    ensures Returned(calls) <= Lines(rem)
    ensures Lines(rem) == Returned(calls) + Lines(Left(rem, calls))
    ensures rem == Flatten(Returned(calls)) + Left(rem, calls)
  {
    hide NextLine, Find, Lines, Run, Left, Returned, Flatten;
    if calls == [] {
      NoCalls(rem, calls);
    } else {
      var a, rest := Answer(calls[0]), calls[1..];
      RunStep(rem, calls);
      FramingIndependentOfChunks(rem[|a|..], rest);
      if a != [] {
        FlattenCons(a, Returned(rest));
        assert rem == a + rem[|a|..];
      } else {
        assert rem[|a|..] == rem;
      }
    }
  }

  lemma NoCalls(rem: Bytes, calls: seq<Call>)
    requires calls == [] && Run(rem, calls)
    ensures Returned(calls) == [] && Flatten([]) == [] && Left(rem, calls) == rem
  {}

  lemma RunStep(rem: Bytes, calls: seq<Call>)
    requires calls != [] && Run(rem, calls)
    ensures var a, rest := Answer(calls[0]), calls[1..];
            && a <= rem && Run(rem[|a|..], rest)
            && Left(rem, calls) == Left(rem[|a|..], rest)
            && Returned(calls) == (if a == [] then Returned(rest) else [a] + Returned(rest))
            && (a != [] ==> Lines(rem) == [a] + Lines(rem[|a|..]))
            && (calls[0].Read? && rem != [] ==> a != [])
  {
    PromisedIsNext(rem, calls[0]);
  }

  lemma FlattenCons(a: Bytes, rest: seq<Bytes>)
    ensures Flatten([a] + rest) == a + Flatten(rest)
  {
    assert ([a] + rest)[1..] == rest;
  }

  /** An answer is nothing, or the first of the lines that remain. */
  lemma PromisedIsNext(rem: Bytes, c: Call)
    requires Promised(rem, c)
    ensures Answer(c) <= rem
    ensures Answer(c) != [] ==> Lines(rem) == [Answer(c)] + Lines(rem[|Answer(c)|..])
    ensures c.Read? && rem != [] ==> Answer(c) != []
  {}

  /** Enough reads hand out the whole stream. */
  lemma {:induction false} ReadsReachTheEnd(rem: Bytes, calls: seq<Call>)
    requires Run(rem, calls) && Reads(calls) >= |Lines(rem)|
    ensures Returned(calls) == Lines(rem) && Left(rem, calls) == []
  {
    hide NextLine, Find, Run, Left, Returned, Flatten;
    if calls == [] {
      NoCalls(rem, calls);
    } else {
      var a := Answer(calls[0]);
      RunStep(rem, calls);
      ReadsReachTheEnd(rem[|a|..], calls[1..]);
      if a == [] {
        assert rem[|a|..] == rem;
      }
    }
  }
}
