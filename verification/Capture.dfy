/** Capturing a growing log: a resumable fold over its lines, with a verified prefix and
    a last line that may be recorded before it is finished. */
module Capture {
  import opened Basics
  import opened Candidates
  import opened JsonGrammar
  import opened JsonTheorems
  import opened Discriminators
  import opened LineReader

  /** What cleaning keeps of a record: its discriminators, its data and its directory. */
  datatype Clean = Clean(strings: Strings, data: string, directory: string)

  /** Cleaning, locating and the validity of texts that are not objects are not modelled
      further. */
  datatype Env = Env(harness: Harness, clean: Json -> Clean, otherValue: string -> bool, locate: string -> string)

  datatype Entry = Entry(ordinal: nat, kind: Units, data: string)

  datatype Context = Context(records: seq<Entry>, location: Option<string>)

  /** prefix is what the prefix hash has absorbed. */
  datatype Cursor = Cursor(source: string, lineage: string, prefix: string, offset: nat, ordinal: nat, context: Context)

  datatype Observation = Observation(source: string, lineage: string, ordinal: nat, data: string,
                                     context: seq<Entry>, location: Option<string>)

  const NO_CONTEXT := Context([], None)

  // ----- one record -----

  function Sanitised(env: Env, line: string): Option<Clean>
  {
    match ParseLine(line) case None => None case Some(v) => Some(env.clean(v))
  }

  /** A complete JSON value of any kind. */
  predicate Complete(env: Env, line: string)
  {
    ParseLine(line).Some? || env.otherValue(line)
  }

  function Without(records: seq<Entry>, kind: Units): seq<Entry>
  {
    if records == [] then []
    else
      var rest := Without(records[..|records| - 1], kind);
      if records[|records| - 1].kind == kind then rest else rest + [records[|records| - 1]]
  }

  function Before(records: seq<Entry>, ordinal: nat): seq<Entry>
  {
    if records == [] then []
    else
      var rest := Before(records[..|records| - 1], ordinal);
      if records[|records| - 1].ordinal == ordinal then rest else rest + [records[|records| - 1]]
  }

  /** The latest context record of each kind is kept. */
  function WithContext(env: Env, context: Context, ordinal: nat, clean: Clean): Context
  {
    if ContextRecord(env.harness, clean.strings)
    then context.(records := Without(context.records, clean.strings.kind) + [Entry(ordinal, clean.strings.kind, clean.data)])
    else context
  }

  /** What one line contributes, given the context before it. */
  function Extracted(env: Env, c: Cursor, line: string): (Context, Option<Observation>)
  {
    var ordinal := c.ordinal + 1;
    match Sanitised(env, line)
    case None => (c.context, None)
    case Some(clean) =>
      var context := WithContext(env, c.context, ordinal, clean);
      if !ContextRecord(env.harness, clean.strings) && !UsageRecord(env.harness, clean.strings) then (context, None)
      else
        var located := if clean.directory != "" then context.(location := Some(env.locate(clean.directory))) else context;
        (located, Some(Observation(c.source, c.lineage, ordinal, clean.data, Before(located.records, ordinal), located.location)))
  }

  // ----- one line -----

  datatype Stepped =
    | Moved(next: Cursor, observation: Option<Observation>)
    | Stopped(tail: Option<Observation>, verified: nat)
    | Limit

  function Advanced(file: string, c: Cursor, length: nat, context: Context): Cursor
    requires c.offset + length <= |file|
  {
    Cursor(c.source, c.lineage, file[..c.offset + length], c.offset + length, c.ordinal + 1, context)
  }

  lemma LineFits(file: string, offset: nat)
    requires offset <= |file|
    ensures offset + |FirstLine(file[offset..])| <= |file|
    ensures file[offset..offset + |FirstLine(file[offset..])|] == FirstLine(file[offset..])
  {
    LineIsPrefix(file[offset..]);
  }

  /** Only a terminated line moves the cursor. An unterminated one is recorded if it is a
      complete value, and stays before the cursor. */
  ghost function StepLine(env: Env, file: string, c: Cursor): Stepped
    requires c.offset <= |file|
  {
    LineFits(file, c.offset);
    match ReadLine(env.harness, file[c.offset..])
    case Partial(_) => Stopped(None, c.offset)
    case RecordLimit => Limit
    case Line(text, eof) =>
      if eof && (text == "" || !Complete(env, text)) then Stopped(None, c.offset)
      else if eof then Stopped(Extracted(env, c, text).1, c.offset + |text|)
      else Moved(Advanced(file, c, |text|, Extracted(env, c, text).0), Extracted(env, c, text).1)
    case Skipped(length, eof) =>
      if eof then Stopped(None, c.offset + length) else Moved(Advanced(file, c, length, c.context), None)
  }

  lemma StepMoves(env: Env, file: string, c: Cursor)
    requires c.offset <= |file| && StepLine(env, file, c).Moved?
    ensures var next := StepLine(env, file, c).next;
            c.offset < next.offset <= |file| && next.prefix == file[..next.offset] && next.ordinal == c.ordinal + 1 &&
            next.source == c.source && next.lineage == c.lineage && file[next.offset - 1] == '\n'
  {
    hide ParseLine, Skippable, Extracted, Complete;
    LineFits(file, c.offset);
    LineShape(file[c.offset..]);
    LineIsPrefix(file[c.offset..]);
  }

  // ----- the whole file -----

  datatype Scan = Scan(cursor: Cursor, settled: seq<Observation>, tail: Option<Observation>, verified: nat)

  function OfOption(o: Option<Observation>): seq<Observation>
  {
    if o.Some? then [o.value] else []
  }

  function Prepended(o: seq<Observation>, r: Result<Scan, nat>): Result<Scan, nat>
  {
    match r case Err(offset) => Err(offset) case Ok(s) => Ok(s.(settled := o + s.settled))
  }

  /** An oversized record that cannot be skipped fails the whole parse at its offset. */
  ghost function ScanFrom(env: Env, file: string, c: Cursor): Result<Scan, nat>
    requires c.offset <= |file|
    decreases |file| - c.offset
  {
    match StepLine(env, file, c)
    case Limit => Err(c.offset)
    case Stopped(tail, verified) => Ok(Scan(c, [], tail, verified))
    case Moved(next, o) =>
      StepMoves(env, file, c);
      Prepended(OfOption(o), ScanFrom(env, file, next))
  }

  function Beginning(source: string, lineage: string): Cursor
  {
    Cursor(source, lineage, "", 0, 0, NO_CONTEXT)
  }

  /** Where a parse starts: at the checkpoint if the file still begins with what was
      captured, otherwise at the beginning in a new lineage; a refresh starts over in the
      same lineage. */
  function StartOf(file: string, checkpoint: Option<Cursor>, source: string, lineage: string, refresh: bool): (c: Cursor)
    ensures c.offset <= |file| && c.prefix == file[..c.offset]
  {
    var saved := if checkpoint.Some? then checkpoint.value else Beginning(source, lineage);
    var verified :=
      if saved.offset > 0 && (saved.offset > |file| || file[..saved.offset] != saved.prefix)
      then Beginning(saved.source, lineage)
      else saved;
    if refresh || verified.offset == 0 then Cursor(verified.source, verified.lineage, "", 0, if refresh then 0 else verified.ordinal,
                                                   if refresh then NO_CONTEXT else verified.context)
    else verified
  }

  /** A file that no longer begins with what was captured is another one, read from its
      beginning under a new lineage; otherwise reading resumes, or starts over if asked. */
  lemma StartFollowsTheFile(file: string, saved: Cursor, source: string, lineage: string, refresh: bool)
    requires saved.offset == |saved.prefix| > 0
    ensures StartOf(file, None, source, lineage, refresh) == Beginning(source, lineage)
    ensures StartOf(file, Some(saved), source, lineage, refresh) ==
            if !(saved.prefix <= file) then Beginning(saved.source, lineage)
            else if refresh then Beginning(saved.source, saved.lineage) else saved
  {
    if saved.prefix <= file {
      assert file[..saved.offset] == saved.prefix;
    }
  }

  datatype Prepared = Prepared(baseline: Option<Cursor>, cursor: Cursor, staged: seq<Observation>, verified: nat, seen: string)

  ghost function Prepare(env: Env, file: string, checkpoint: Option<Cursor>, source: string, lineage: string, refresh: bool)
    : (r: Result<Prepared, nat>)
  {
    match ScanFrom(env, file, StartOf(file, checkpoint, source, lineage, refresh))
    case Err(offset) => Err(offset)
    case Ok(s) =>
      Ok(Prepared(checkpoint, s.cursor, s.settled + OfOption(s.tail), s.verified, if s.verified <= |file| then file[..s.verified] else file))
  }

  lemma {:induction false} ScanVerified(env: Env, file: string, c: Cursor)
    requires c.offset <= |file| && ScanFrom(env, file, c).Ok?
    ensures var s := ScanFrom(env, file, c).value; c.offset <= s.cursor.offset <= s.verified <= |file|
    decreases |file| - c.offset
  {
    hide ReadLine, Extracted, Complete, Advanced;
    match StepLine(env, file, c)
    case Moved(next, _) =>
      StepMoves(env, file, c);
      ScanVerified(env, file, next);
    case Stopped(_, _) => StopVerified(env, file, c);
    case Limit =>
  }

  lemma StopVerified(env: Env, file: string, c: Cursor)
    requires c.offset <= |file| && StepLine(env, file, c).Stopped?
    ensures c.offset <= StepLine(env, file, c).verified <= |file|
  {
    LineFits(file, c.offset);
    hide ParseLine, Skippable, Extracted, Complete;
  }

  // ----- the loop -----

  method FilterKind(records: seq<Entry>, kind: Units) returns (kept: seq<Entry>)
    ensures kept == Without(records, kind)
  {
    kept := [];
    var i := 0;
    while i < |records|
      invariant 0 <= i <= |records| && kept == Without(records[..i], kind)
    {
      assert records[..i + 1][..i] == records[..i];
      if records[i].kind != kind {
        kept := kept + [records[i]];
      }
      i := i + 1;
    }
    assert records[..i] == records;
  }

  method FilterOrdinal(records: seq<Entry>, ordinal: nat) returns (kept: seq<Entry>)
    ensures kept == Before(records, ordinal)
  {
    kept := [];
    var i := 0;
    while i < |records|
      invariant 0 <= i <= |records| && kept == Before(records[..i], ordinal)
    {
      assert records[..i + 1][..i] == records[..i];
      if records[i].ordinal != ordinal {
        kept := kept + [records[i]];
      }
      i := i + 1;
    }
    assert records[..i] == records;
  }

  method ExtractRecord(env: Env, c: Cursor, line: string) returns (context: Context, o: Option<Observation>)
    ensures (context, o) == Extracted(env, c, line)
  {
    hide ParseLine, UsageRecord, ContextRecord, Without, Before;
    context, o := c.context, None;
    var ordinal := c.ordinal + 1;
    var clean := Sanitised(env, line);
    if clean.None? {
      return;
    }
    var contextRecord := ContextRecord(env.harness, clean.value.strings);
    if contextRecord {
      var filtered := FilterKind(context.records, clean.value.strings.kind);
      context := context.(records := filtered + [Entry(ordinal, clean.value.strings.kind, clean.value.data)]);
    }
    if !contextRecord && !UsageRecord(env.harness, clean.value.strings) {
      return;
    }
    if clean.value.directory != "" {
      context := context.(location := Some(env.locate(clean.value.directory)));
    }
    var shown := FilterOrdinal(context.records, ordinal);
    o := Some(Observation(c.source, c.lineage, ordinal, clean.value.data, shown, context.location));
  }

  /** Whether reading on makes no sense: the end of the file, or a record still growing. */
  predicate NothingMore(env: Env, read: CaptureLine)
  {
    read.Partial? || (read.Line? && read.eof && (read.text == "" || !Complete(env, read.text)))
  }

  /** Takes one line that is not an unfinished tail. */
  method TakeLine(env: Env, file: string, c: Cursor, read: CaptureLine, digest: Digest) returns (next: Cursor, o: Option<Observation>)
    requires c.offset <= |file| && c.prefix == file[..c.offset] && read == ReadLine(env.harness, file[c.offset..])
    requires !NothingMore(env, read) && !read.RecordLimit?
    requires digest.absorbed == HashAfter(c.prefix, env.harness, file[c.offset..])
    modifies digest
    ensures match StepLine(env, file, c)
            case Moved(moved, observation) => next == moved && o == observation && !read.eof
            case Stopped(tail, verified) => o == tail && next.offset == verified && read.eof
            case Limit => false
    ensures next.offset <= |file| && digest.absorbed == file[..next.offset] == next.prefix
  {
    hide ReadLine, Extracted, Complete, HashAfter, StepLine, FirstLine, LineLength;
    StepUnfolded(env, file, c);
    HashUnfolded(c.prefix, env.harness, file[c.offset..]);
    ReadConsumes(env.harness, file[c.offset..]);
    LineFits(file, c.offset);
    next, o := c, None;
    var length: nat;
    if read.Skipped? {
      length := read.length;
    } else {
      digest.Write(read.text);
      length := |read.text|;
      var context: Context;
      context, o := ExtractRecord(env, c, read.text);
      next := next.(context := context);
    }
    assert file[..c.offset] + file[c.offset..c.offset + length] == file[..c.offset + length];
    next := next.(offset := c.offset + length, ordinal := c.ordinal + 1, prefix := digest.absorbed);
  }

  /** Parses from the checkpoint, holding no transaction: what it stages is committed
      later, if nothing has changed meanwhile. */
  method ParseJSONL(env: Env, file: string, checkpoint: Option<Cursor>, source: string, lineage: string, refresh: bool)
      returns (r: Result<Prepared, nat>)
    ensures r == Prepare(env, file, checkpoint, source, lineage, refresh)
  {
    hide ReadLine, Extracted, Complete, HashAfter, StepLine, FirstLine, LineLength, ScanFrom, StartOf, Prepare, Prepended, Advanced;
    var cursor := StartOf(file, checkpoint, source, lineage, refresh);
    var digest := new Digest();
    digest.Write(file[..cursor.offset]);
    assert "" + file[..cursor.offset] == file[..cursor.offset];
    var reader := new SliceReader(file, cursor.offset);
    var staged: seq<Observation> := [];
    ghost var start := cursor;
    NothingStaged(ScanFrom(env, file, cursor));
    while true
      invariant reader.Ready() && reader.file == file && reader.pos == cursor.offset
      invariant start.offset <= |file| && digest.absorbed == file[..cursor.offset] == cursor.prefix
      invariant ScanFrom(env, file, start) == Prepended(staged, ScanFrom(env, file, cursor))
      decreases |file| - cursor.offset
    {
      StepKinds(env, file, cursor);
      var read := ReadCaptureLine(reader, env.harness, digest);
      if read.RecordLimit? {
        ScanFails(env, file, cursor);
        ParseFails(env, file, checkpoint, source, lineage, refresh, staged, cursor.offset);
        return Err(cursor.offset);
      }
      if NothingMore(env, read) {
        ScanEnds(env, file, cursor, start, staged);
        ParseEnds(env, file, checkpoint, source, lineage, refresh, cursor, staged, cursor.offset);
        r := Ok(Prepared(checkpoint, cursor, staged, cursor.offset, digest.absorbed));
        return;
      }
      var next, o := TakeLine(env, file, cursor, read, digest);
      ghost var before := staged;
      staged := staged + OfOption(o);
      // A complete final value is evidence, but its cursor stays before the line.
      if read.eof {
        ScanStops(env, file, cursor, start, before, o, next.offset);
        ParseEnds(env, file, checkpoint, source, lineage, refresh, cursor, staged, next.offset);
        r := Ok(Prepared(checkpoint, cursor, staged, next.offset, digest.absorbed));
        return;
      }
      ScanMoves(env, file, cursor, start, before, OfOption(o));
      StepMoves(env, file, cursor);
      ReaderFollows(file, reader.pos, cursor.offset, next.offset);
      cursor := next;
    }
  }

  lemma ParseFails(env: Env, file: string, checkpoint: Option<Cursor>, source: string, lineage: string, refresh: bool,
                   staged: seq<Observation>, offset: nat)
    requires ScanFrom(env, file, StartOf(file, checkpoint, source, lineage, refresh)) == Prepended(staged, Err(offset))
    ensures Prepare(env, file, checkpoint, source, lineage, refresh) == Err(offset)
  {
    hide ScanFrom, StartOf;
  }

  lemma ParseEnds(env: Env, file: string, checkpoint: Option<Cursor>, source: string, lineage: string, refresh: bool,
                  cursor: Cursor, staged: seq<Observation>, verified: nat)
    requires verified <= |file| && ScanFrom(env, file, StartOf(file, checkpoint, source, lineage, refresh)).Ok?
    requires var s := ScanFrom(env, file, StartOf(file, checkpoint, source, lineage, refresh)).value;
             s.cursor == cursor && s.settled + OfOption(s.tail) == staged && s.verified == verified
    ensures Prepare(env, file, checkpoint, source, lineage, refresh) ==
            Ok(Prepared(checkpoint, cursor, staged, verified, file[..verified]))
  {
    hide ScanFrom, StartOf;
  }

  /** The reader and the cursor agree on the line that was read. */
  lemma ReaderFollows(file: string, pos: nat, before: nat, after: nat)
    requires pos <= |file| && before <= |file| && after == before + LineLength(file[before..])
    requires file[pos..] == file[before..][LineLength(file[before..])..]
    ensures pos == after
  {
    hide LineLength;
    assert |file[pos..]| == |file| - pos;
  }

  lemma StepKinds(env: Env, file: string, c: Cursor)
    requires c.offset <= |file| && c.prefix == file[..c.offset]
    ensures var read, step := ReadLine(env.harness, file[c.offset..]), StepLine(env, file, c);
            && (read.RecordLimit? <==> step.Limit?)
            && (NothingMore(env, read) ==> step == Stopped(None, c.offset) && HashAfter(c.prefix, env.harness, file[c.offset..]) == c.prefix)
            && (step.Moved? ==> step.next.offset == c.offset + LineLength(file[c.offset..]) <= |file|)
  {
    hide ReadLine, Extracted, Complete, HashAfter, StepLine, FirstLine, LineLength;
    StepUnfolded(env, file, c);
    HashUnfolded(c.prefix, env.harness, file[c.offset..]);
    ReadConsumes(env.harness, file[c.offset..]);
  }

  lemma ScanFails(env: Env, file: string, c: Cursor)
    requires c.offset <= |file| && StepLine(env, file, c).Limit?
    ensures ScanFrom(env, file, c) == Err(c.offset)
  {
    hide StepLine;
  }

  lemma NothingStaged(r: Result<Scan, nat>)
    ensures Prepended([], r) == r
  {
    if r.Ok? {
      assert [] + r.value.settled == r.value.settled;
    }
  }

  lemma StepUnfolded(env: Env, file: string, c: Cursor)
    requires c.offset <= |file|
    ensures var rest, step := file[c.offset..], StepLine(env, file, c);
            match ReadLine(env.harness, rest)
            case Partial(_) => step == Stopped(None, c.offset)
            case RecordLimit => step == Limit
            case Line(text, eof) =>
              c.offset + |text| <= |file| &&
              (if eof && (text == "" || !Complete(env, text)) then step == Stopped(None, c.offset)
               else if eof then step == Stopped(Extracted(env, c, text).1, c.offset + |text|)
               else step == Moved(Advanced(file, c, |text|, Extracted(env, c, text).0), Extracted(env, c, text).1))
            case Skipped(length, eof) =>
              c.offset + length <= |file| &&
              (if eof then step == Stopped(None, c.offset + length) else step == Moved(Advanced(file, c, length, c.context), None))
  {
    hide Extracted, Complete, Advanced, Skippable, ParseLine;
    LineFits(file, c.offset);
  }

  lemma HashUnfolded(absorbed: string, h: Harness, rest: string)
    ensures match ReadLine(h, rest)
            case Line(_, _) => HashAfter(absorbed, h, rest) == absorbed
            case Partial(_) => HashAfter(absorbed, h, rest) == absorbed
            case Skipped(_, _) => HashAfter(absorbed, h, rest) == absorbed + FirstLine(rest)
            case RecordLimit => true
  {
    hide ReadLine, FirstLine;
  }

  lemma ReadConsumes(h: Harness, rest: string)
    ensures match ReadLine(h, rest)
            case Line(text, eof) => text == FirstLine(rest) && |text| == LineLength(rest) && (!eof ==> |text| > 0)
            case Skipped(length, _) => length == |FirstLine(rest)| == LineLength(rest) > 0
            case Partial(_) => true
            case RecordLimit => true
  {
    hide Skippable, ParseLine;
    LineIsPrefix(rest);
  }

  lemma ScanMoves(env: Env, file: string, c: Cursor, start: Cursor, staged: seq<Observation>, o: seq<Observation>)
    requires c.offset <= |file| && start.offset <= |file| && StepLine(env, file, c).Moved? && o == OfOption(StepLine(env, file, c).observation)
    requires ScanFrom(env, file, start) == Prepended(staged, ScanFrom(env, file, c))
    ensures StepLine(env, file, c).next.offset <= |file|
    ensures ScanFrom(env, file, start) == Prepended(staged + o, ScanFrom(env, file, StepLine(env, file, c).next))
  {
    hide StepLine;
    StepMoves(env, file, c);
    var rest := ScanFrom(env, file, StepLine(env, file, c).next);
    if rest.Ok? {
      assert staged + (o + rest.value.settled) == staged + o + rest.value.settled;
    }
  }

  lemma ScanStops(env: Env, file: string, c: Cursor, start: Cursor, staged: seq<Observation>, o: Option<Observation>, verified: nat)
    requires c.offset <= |file| && start.offset <= |file| && StepLine(env, file, c) == Stopped(o, verified)
    requires ScanFrom(env, file, start) == Prepended(staged, ScanFrom(env, file, c))
    ensures ScanFrom(env, file, start).Ok?
    ensures var s := ScanFrom(env, file, start).value;
            s.cursor == c && s.settled + OfOption(s.tail) == staged + OfOption(o) && s.verified == verified
  {
    hide StepLine;
    assert staged + [] == staged;
  }

  lemma ScanEnds(env: Env, file: string, c: Cursor, start: Cursor, staged: seq<Observation>)
    requires c.offset <= |file| && start.offset <= |file| && StepLine(env, file, c) == Stopped(None, c.offset)
    requires ScanFrom(env, file, start) == Prepended(staged, ScanFrom(env, file, c))
    ensures ScanFrom(env, file, start).Ok?
    ensures var s := ScanFrom(env, file, start).value; s.cursor == c && s.settled + OfOption(s.tail) == staged && s.verified == c.offset
  {
    hide StepLine;
    assert staged + [] == staged;
    ScanStops(env, file, c, start, staged, None, c.offset);
  }
}
