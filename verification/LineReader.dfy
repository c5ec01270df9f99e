/** Reading a growing log one line at a time. Lines within the limit are returned whole;
    longer ones are validated and drained, hashed on the way, and skipped only if they
    are provably irrelevant. */
module LineReader {
  import opened Basics
  import opened Candidates
  import opened JsonGrammar
  import opened JsonTheorems
  import opened Discriminators
  import opened StreamRecogniser

  const MAX_LINE_BYTES: nat := 16777216
  const BUFFER_BYTES: nat := 4096

  // ----- lines -----

  function LineLength(s: string): (n: nat)
    ensures n <= |s| && (s != "" ==> n > 0)
  {
    if s == "" then 0 else if s[0] == '\n' then 1 else 1 + LineLength(s[1..])
  }

  /** Everything up to and including the first newline, or everything. */
  function FirstLine(s: string): string
  {
    s[..LineLength(s)]
  }

  predicate Terminated(line: string)
  {
    line != "" && line[|line| - 1] == '\n'
  }

  predicate NoNewline(s: string)
  {
    forall i :: 0 <= i < |s| ==> s[i] != '\n'
  }

  lemma {:induction false} LineIs(s: string, n: nat)
    requires n <= |s| && NoNewline(s[..n])
    ensures n < |s| && s[n] == '\n' ==> LineLength(s) == n + 1
    ensures n == |s| ==> LineLength(s) == n
    ensures LineLength(s) >= n && FirstLine(s) == s[..n] + FirstLine(s[n..])
    decreases n
  {
    if n == 0 {
      assert s[0..] == s;
    } else {
      assert s[0] == s[..n][0];
      assert s[1..][..n - 1] == s[..n][1..] && s[1..][n - 1..] == s[n..];
      LineIs(s[1..], n - 1);
      assert FirstLine(s) == [s[0]] + FirstLine(s[1..]);
      assert s[..n] == [s[0]] + s[1..][..n - 1];
    }
  }

  lemma {:induction false} LineShape(s: string)
    ensures var line := FirstLine(s);
            if Terminated(line) then NoNewline(line[..|line| - 1]) else NoNewline(line) && line == s
  {
    if s != "" && s[0] != '\n' {
      LineShape(s[1..]);
      var line, rest := FirstLine(s), FirstLine(s[1..]);
      assert line == [s[0]] + rest;
      if Terminated(rest) {
        assert line[..|line| - 1] == [s[0]] + rest[..|rest| - 1];
      }
    }
  }

  // ----- what reading a line yields -----

  datatype CaptureLine = Line(text: string, eof: bool) | Skipped(length: nat, eof: bool) | Partial(length: nat) | RecordLimit

  /** One whole object, and of no use to the harness. */
  ghost predicate Skippable(h: Harness, line: string)
  {
    match ParseLine(line)
    case None => false
    case Some(v) => ReadingIsGrammar(line, v); Irrelevant(h, NoteMembers(NOTHING, Root, v.members))
  }

  ghost function ReadLine(h: Harness, rest: string): CaptureLine
  {
    var line := FirstLine(rest);
    var eof := !Terminated(line);
    if |line| <= MAX_LINE_BYTES then Line(line, eof)
    else if eof && ParseLine(line).None? then Partial(|line|)
    else if !Skippable(h, line) then RecordLimit
    else Skipped(|line|, eof)
  }

  /** What the running hash has absorbed afterwards: whole lines are left to the caller. */
  ghost function HashAfter(absorbed: string, h: Harness, rest: string): string
  {
    match ReadLine(h, rest)
    case Line(_, _) => absorbed
    case Partial(_) => absorbed
    case Skipped(_, _) => absorbed + FirstLine(rest)
    case RecordLimit => absorbed + FirstLine(rest)
  }

  // ----- the readers -----

  datatype SliceEnd = Newline | BufferFull | EndOfFile

  /** A buffered file. */
  class SliceReader {
    const file: string
    var pos: nat

    constructor (text: string, start: nat)
      requires start <= |text|
      ensures file == text && pos == start
    {
      file, pos := text, start;
    }

    predicate Ready()
      reads this`pos
    {
      pos <= |file|
    }

    function Rest(): string
      requires Ready()
      reads this`pos
    {
      file[pos..]
    }

    /** The bytes up to a newline, a full buffer or the end of the file. */
    method ReadSlice() returns (fragment: string, end: SliceEnd)
      requires Ready()
      modifies this`pos
      ensures Ready() && pos == old(pos) + |fragment| && |fragment| <= BUFFER_BYTES
      ensures old(Rest()) == fragment + Rest()
      ensures FirstLine(old(Rest())) == fragment + (if end == BufferFull then FirstLine(Rest()) else "")
      ensures match end
              case Newline => Terminated(fragment)
              case EndOfFile => NoNewline(fragment) && Rest() == ""
              case BufferFull => NoNewline(fragment) && fragment != ""
    {
      ghost var rest := Rest();
      var n := 0;
      while n < BUFFER_BYTES && pos + n < |file| && file[pos + n] != '\n'
        invariant pos == old(pos) && pos + n <= |file| && n <= BUFFER_BYTES
        invariant NoNewline(rest[..n])
      {
        n := n + 1;
      }
      LineIs(rest, n);
      if n < BUFFER_BYTES && pos + n < |file| {
        fragment := file[pos..pos + n + 1];
        assert fragment == rest[..n + 1];
        end := Newline;
      } else {
        fragment := file[pos..pos + n];
        assert fragment == rest[..n];
        end := if n == BUFFER_BYTES then BufferFull else EndOfFile;
      }
      pos := pos + |fragment|;
      assert Rest() == rest[|fragment|..];
    }
  }

  /** A running hash: distinct inputs have distinct sums, so it is what it has absorbed. */
  class Digest {
    var absorbed: string

    constructor ()
      ensures absorbed == ""
    {
      absorbed := "";
    }

    method Write(bytes: string)
      modifies this
      ensures absorbed == old(absorbed) + bytes
    {
      absorbed := absorbed + bytes;
    }

    method Restore(saved: string)
      modifies this
      ensures absorbed == saved
    {
      absorbed := saved;
    }
  }

  /** Hands out exactly one source line and hashes what it hands out. */
  class CaptureLineReader {
    var prefix: string
    var fragment: string
    const reader: SliceReader
    const digest: Digest
    var ended: bool
    var tail: bool
    var length: nat

    constructor (line: string, slice: string, end: SliceEnd, source: SliceReader, hash: Digest)
      requires source.Ready()
      ensures prefix == line && fragment == slice && reader == source && digest == hash
      ensures ended == (end != BufferFull) && tail == (end == EndOfFile) && length == 0
    {
      prefix, fragment, reader, digest, length := line, slice, source, hash, 0;
      ended, tail := end != BufferFull, end == EndOfFile;
    }

    /** The part of the line still to be handed out. */
    function Left(): string
      requires reader.Ready()
      reads this, reader
    {
      prefix + fragment + (if ended then "" else FirstLine(reader.Rest()))
    }

    /** What follows the line. */
    function Beyond(): string
      requires reader.Ready()
      reads this, reader
    {
      if ended then reader.Rest() else reader.Rest()[LineLength(reader.Rest())..]
    }

    /** The line is the unterminated end of the file. */
    predicate AtTail()
      requires reader.Ready()
      reads this, reader
    {
      if ended then tail else !Terminated(FirstLine(reader.Rest()))
    }

    method Refill()
      requires reader.Ready() && prefix == "" && fragment == "" && !ended
      modifies this`fragment, this`ended, this`tail, reader`pos
      ensures reader.Ready() && Left() == old(Left()) && Beyond() == old(Beyond()) && AtTail() == old(AtTail())
      ensures fragment == "" ==> ended
    {
      hide LineLength, FirstLine, Terminated;
      ghost var before := reader.Rest();
      var end: SliceEnd;
      fragment, end := reader.ReadSlice();
      ended := end != BufferFull;
      tail := end == EndOfFile;
      SliceAdvances(before, fragment, reader.Rest(), end);
    }

    /** Up to count bytes; none are left exactly when none are returned. */
    method Read(count: nat) returns (body: string)
      requires reader.Ready() && count > 0
      modifies this, reader`pos, digest
      ensures reader.Ready() && |body| <= count && old(Left()) == body + Left()
      ensures body == "" <==> old(Left()) == ""
      ensures digest.absorbed == old(digest.absorbed) + body && length == old(length) + |body|
      ensures Beyond() == old(Beyond()) && AtTail() == old(AtTail())
      ensures body == "" ==> ended
    {
      hide LineLength, FirstLine, Terminated;
      if |prefix| > 0 {
        body := prefix[..Min(count, |prefix|)];
        prefix := prefix[|body|..];
      } else {
        if |fragment| == 0 && !ended {
          Refill();
        }
        body := fragment[..Min(count, |fragment|)];
        fragment := fragment[|body|..];
      }
      length := length + |body|;
      digest.Write(body);
    }
  }

  lemma SliceAdvances(before: string, fragment: string, after: string, end: SliceEnd)
    requires before == fragment + after
    requires FirstLine(before) == fragment + (if end == BufferFull then FirstLine(after) else "")
    requires end == Newline ==> Terminated(fragment)
    requires end == EndOfFile ==> NoNewline(fragment) && after == ""
    requires end == BufferFull ==> NoNewline(fragment) && fragment != ""
    ensures end == BufferFull ==>
              before[LineLength(before)..] == after[LineLength(after)..] && Terminated(FirstLine(before)) == Terminated(FirstLine(after))
    ensures end != BufferFull ==>
              after == before[LineLength(before)..] && Terminated(FirstLine(before)) == (end == Newline)
  {
    assert |FirstLine(before)| == LineLength(before) && |FirstLine(after)| == LineLength(after);
    if end == BufferFull {
      assert before[LineLength(before)..] == after[LineLength(after)..];
    }
  }

  // ----- reading one line -----

  /** Reads a whole oversized line through the hash. */
  method DrainAll(drain: CaptureLineReader) returns (text: string)
    requires drain.reader.Ready()
    modifies drain, drain.reader`pos, drain.digest
    ensures drain.reader.Ready() && text == old(drain.Left()) && drain.ended
    ensures drain.digest.absorbed == old(drain.digest.absorbed) + text && drain.length == old(drain.length) + |text|
    ensures drain.reader.Rest() == old(drain.Beyond()) && drain.tail == old(drain.AtTail())
  {
    hide CaptureLineReader.Left, CaptureLineReader.Beyond, CaptureLineReader.AtTail;
    ghost var line, beyond, atTail, saved, counted := drain.Left(), drain.Beyond(), drain.AtTail(), drain.digest.absorbed, drain.length;
    text := "";
    while true
      invariant drain.reader.Ready() && text + drain.Left() == line
      invariant drain.digest.absorbed == saved + text && drain.length == counted + |text|
      invariant drain.Beyond() == beyond && drain.AtTail() == atTail
      decreases |drain.Left()|
    {
      ghost var before := drain.Left();
      var body := drain.Read(BUFFER_BYTES);
      assert before == body + drain.Left();
      assert text + (body + drain.Left()) == text + body + drain.Left();
      assert saved + (text + body) == saved + text + body;
      text := text + body;
      if body == "" {
        WhenDrained(drain);
        return;
      }
    }
  }

  lemma WhenDrained(drain: CaptureLineReader)
    requires drain.reader.Ready() && drain.ended
    ensures drain.Beyond() == drain.reader.Rest() && drain.AtTail() == drain.tail
  {
  }

  lemma SkippableIs(h: Harness, line: string, notes: Option<Notes>)
    requires notes.Some? <==> exists v :: IsObjectText(line, v)
    requires forall v :: IsObjectText(line, v) ==> notes == Some(NoteMembers(NOTHING, Root, v.members))
    ensures notes.Some? <==> ParseLine(line).Some?
    ensures Skippable(h, line) <==> notes.Some? && Irrelevant(h, notes.value)
  {
    hide IsObjectText, ParseLine, NoteMembers, Irrelevant;
    forall v
      ensures ParseLine(line) == Some(v) <==> IsObjectText(line, v)
    {
      ReadingIsGrammar(line, v);
    }
    if ParseLine(line).Some? {
      assert IsObjectText(line, ParseLine(line).value);
    }
  }

  /** An oversized line: validated, drained to its end whatever is found, and skipped only
      if that is proved safe. An unterminated and unfinished one may still grow, so the
      hash is put back. */
  method ReadOversized(drain: CaptureLineReader, h: Harness, saved: string) returns (r: CaptureLine)
    requires drain.reader.Ready() && drain.digest.absorbed == saved && drain.length == 0
    modifies drain, drain.reader`pos, drain.digest
    ensures drain.reader.Ready() && drain.reader.Rest() == old(drain.Beyond())
    ensures var line, eof := old(drain.Left()), old(drain.AtTail());
            if eof && ParseLine(line).None? then r == Partial(|line|) && drain.digest.absorbed == saved
            else if !Skippable(h, line) then r == RecordLimit && drain.digest.absorbed == saved + line
            else r == Skipped(|line|, eof) && drain.digest.absorbed == saved + line
  {
    hide LineLength, FirstLine, Terminated, ParseLine, Skippable, Irrelevant, NoteMembers, IsObjectText;
    var text := DrainAll(drain);
    var notes := Recognise(text);
    SkippableIs(h, text, notes);
    var valid := notes.Some?;
    if drain.tail && !valid {
      drain.digest.Restore(saved);
      return Partial(drain.length);
    }
    if !valid || !Irrelevant(h, notes.value) {
      return RecordLimit;
    }
    r := Skipped(drain.length, drain.tail);
  }

  /** Exactly one line is consumed. The hash ends up having absorbed all of it, or, for a
      line left to the caller or a partial tail, none of it. */
  method ReadCaptureLine(reader: SliceReader, h: Harness, digest: Digest) returns (r: CaptureLine)
    requires reader.Ready()
    modifies reader`pos, digest
    ensures reader.Ready() && reader.Rest() == old(reader.Rest())[LineLength(old(reader.Rest()))..]
    ensures r == ReadLine(h, old(reader.Rest()))
    ensures digest.absorbed == HashAfter(old(digest.absorbed), h, old(reader.Rest()))
  {
    hide LineLength, Terminated, ParseLine, Skippable, FirstLine, ReadLine, HashAfter, ReadSoFar;
    ghost var start, saved := reader.Rest(), digest.absorbed;
    var line := "";
    NothingReadYet(start);
    while true
      invariant reader.Ready() && digest.absorbed == saved
      invariant ReadSoFar(start, line, reader.Rest()) && |line| <= MAX_LINE_BYTES
      decreases |reader.file| - reader.pos
    {
      ghost var before := reader.Rest();
      var fragment, end := reader.ReadSlice();
      ReadFurther(start, line, before, fragment, reader.Rest(), end);
      if |line| + |fragment| > MAX_LINE_BYTES {
        r := Oversized(line, fragment, end, reader, h, digest, start);
        OversizedIs(h, start, saved, r, digest.absorbed);
        return;
      }
      line := line + fragment;
      if end != BufferFull {
        ShortLineIs(h, start, saved);
        return Line(line, end == EndOfFile);
      }
    }
  }

  /** The first line of start is what was read and the first line of what is left. */
  predicate ReadSoFar(start: string, line: string, rest: string)
  {
    && FirstLine(start) == line + FirstLine(rest)
    && start[LineLength(start)..] == rest[LineLength(rest)..]
    && Terminated(FirstLine(start)) == Terminated(FirstLine(rest))
  }

  lemma NothingReadYet(start: string)
    ensures ReadSoFar(start, "", start)
  {
    assert "" + FirstLine(start) == FirstLine(start);
  }

  lemma ReadFurther(start: string, line: string, before: string, fragment: string, after: string, end: SliceEnd)
    requires ReadSoFar(start, line, before) && before == fragment + after
    requires FirstLine(before) == fragment + (if end == BufferFull then FirstLine(after) else "")
    requires end == Newline ==> Terminated(fragment)
    requires end == EndOfFile ==> NoNewline(fragment) && after == ""
    requires end == BufferFull ==> NoNewline(fragment) && fragment != ""
    ensures FirstLine(start) == line + fragment + (if end == BufferFull then FirstLine(after) else "")
    ensures start[LineLength(start)..] == if end == BufferFull then after[LineLength(after)..] else after
    ensures Terminated(FirstLine(start)) == if end == BufferFull then Terminated(FirstLine(after)) else end == Newline
    ensures end == BufferFull ==> ReadSoFar(start, line + fragment, after)
    ensures end != BufferFull ==> FirstLine(start) == line + fragment
    ensures |FirstLine(start)| >= |line| + |fragment|
  {
    hide LineLength, FirstLine, Terminated;
    SliceAdvances(before, fragment, after, end);
  }

  method Oversized(line: string, fragment: string, end: SliceEnd, reader: SliceReader, h: Harness, digest: Digest, ghost start: string)
      returns (r: CaptureLine)
    requires reader.Ready() && FirstLine(start) == line + fragment + (if end == BufferFull then FirstLine(reader.Rest()) else "")
    requires start[LineLength(start)..] == if end == BufferFull then reader.Rest()[LineLength(reader.Rest())..] else reader.Rest()
    requires Terminated(FirstLine(start)) == if end == BufferFull then Terminated(FirstLine(reader.Rest())) else end == Newline
    modifies reader`pos, digest
    ensures reader.Ready() && reader.Rest() == start[LineLength(start)..]
    ensures DrainedAs(h, start, old(digest.absorbed), r, digest.absorbed)
  {
    hide LineLength, Terminated, ParseLine, Skippable, FirstLine;
    var drain := new CaptureLineReader(line, fragment, end, reader, digest);
    assert drain.Left() == FirstLine(start) && drain.Beyond() == start[LineLength(start)..];
    r := ReadOversized(drain, h, digest.absorbed);
  }

  /** The result of draining the first line of the text. */
  ghost predicate DrainedAs(h: Harness, start: string, saved: string, r: CaptureLine, absorbed: string)
  {
    var line, eof := FirstLine(start), !Terminated(FirstLine(start));
    if eof && ParseLine(line).None? then r == Partial(|line|) && absorbed == saved
    else if !Skippable(h, line) then r == RecordLimit && absorbed == saved + line
    else r == Skipped(|line|, eof) && absorbed == saved + line
  }

  lemma OversizedIs(h: Harness, start: string, saved: string, r: CaptureLine, absorbed: string)
    requires |FirstLine(start)| > MAX_LINE_BYTES && DrainedAs(h, start, saved, r, absorbed)
    ensures r == ReadLine(h, start) && absorbed == HashAfter(saved, h, start)
  {
    hide LineLength, Terminated, ParseLine, Skippable, FirstLine;
  }

  lemma ShortLineIs(h: Harness, start: string, saved: string)
    requires |FirstLine(start)| <= MAX_LINE_BYTES
    ensures ReadLine(h, start) == Line(FirstLine(start), !Terminated(FirstLine(start))) && HashAfter(saved, h, start) == saved
  {
    hide LineLength, Terminated, ParseLine, Skippable, FirstLine;
  }

  lemma LineIsPrefix(s: string)
    ensures |FirstLine(s)| == LineLength(s) <= |s|
    ensures s == FirstLine(s) + s[LineLength(s)..]
  {
  }
}
