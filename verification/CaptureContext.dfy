/** What a captured record carries, read off the lines of the file: the last context line
    of each kind before it, and the directory last named. */
module CaptureContext {
  import opened Basics
  import opened Candidates
  import opened JsonGrammar
  import opened JsonTheorems
  import opened Discriminators
  import opened LineReader
  import opened Capture
  import opened CaptureRuns

  // ----- the lines of a file -----

  /** What follows the first n lines. */
  function Beyond(file: string, n: nat): string
  {
    if n == 0 then file
    else
      var rest := Beyond(file, n - 1);
      LineIsPrefix(rest);
      rest[|FirstLine(rest)|..]
  }

  /** The n-th line, counted from one, with its newline. */
  function NthLine(file: string, n: nat): string
  {
    if n == 0 then "" else FirstLine(Beyond(file, n - 1))
  }

  // ----- what one line is -----

  /** The cleaned object a line holds. */
  ghost predicate Holds(env: Env, line: string, clean: Clean)
  {
    ParseLine(line).Some? && clean == env.clean(ParseLine(line).value)
  }

  ghost predicate IsContext(env: Env, line: string)
  {
    exists clean :: Holds(env, line, clean) && OfContext(env.harness, clean.strings)
  }

  ghost predicate IsUsage(env: Env, line: string)
  {
    exists clean :: Holds(env, line, clean) && OfUsage(env.harness, clean.strings)
  }

  /** A session, or one of the records Codex writes before a turn. */
  ghost predicate OfContext(h: Harness, s: Strings)
  {
    || (h == Pi && s.kind == Ascii("session"))
    || (h == Codex && (s.kind == Ascii("session_meta") || s.kind == Ascii("turn_context")))
    || (h == Codex && s.kind == Ascii("event_msg") && s.payloadType == Ascii("task_started"))
  }

  ghost predicate OfUsage(h: Harness, s: Strings)
  {
    || (h == Pi && s.kind == Ascii("message") && s.role == Ascii("assistant"))
    || (h == ClaudeCode && s.kind == Ascii("assistant") && s.role == Ascii("assistant"))
    || (h == Codex && s.kind == Ascii("event_msg") && s.payloadType == Ascii("token_count"))
  }

  function KindOf(env: Env, line: string): Units
  {
    if ParseLine(line).Some? then env.clean(ParseLine(line).value).strings.kind else []
  }

  function DataOf(env: Env, line: string): string
  {
    if ParseLine(line).Some? then env.clean(ParseLine(line).value).data else ""
  }

  /** The directory a usage or context line names; "" if none. */
  ghost function DirectoryOf(env: Env, line: string): string
  {
    if IsContext(env, line) || IsUsage(env, line) then env.clean(ParseLine(line).value).directory else ""
  }

  // ----- what a stretch of lines leaves behind -----

  /** Line m is a context line, and no later one of the first n is of its kind. */
  ghost predicate LastOfKind(env: Env, file: string, n: nat, m: nat)
  {
    && 1 <= m <= n && IsContext(env, NthLine(file, m))
    && forall k :: m < k <= n && IsContext(env, NthLine(file, k)) ==> KindOf(env, NthLine(file, k)) != KindOf(env, NthLine(file, m))
  }

  /** The entry is that line, under its own number. */
  ghost predicate EntryOf(env: Env, file: string, e: Entry)
  {
    e.kind == KindOf(env, NthLine(file, e.ordinal)) && e.data == DataOf(env, NthLine(file, e.ordinal))
  }

  predicate Rising(records: seq<Entry>)
  {
    forall i, k :: 0 <= i < k < |records| ==> records[i].ordinal < records[k].ordinal
  }

  /** The location is that of the last directory named. */
  ghost predicate LocatedBy(env: Env, file: string, n: nat, location: Option<string>)
  {
    match location
    case None => forall k :: 1 <= k <= n ==> DirectoryOf(env, NthLine(file, k)) == ""
    case Some(l) =>
      exists m :: 1 <= m <= n && DirectoryOf(env, NthLine(file, m)) != "" && l == env.locate(DirectoryOf(env, NthLine(file, m))) &&
        forall k :: m < k <= n ==> DirectoryOf(env, NthLine(file, k)) == ""
  }

  ghost predicate ContextIs(env: Env, file: string, n: nat, context: Context)
  {
    && Rising(context.records)
    && (forall e :: e in context.records <==> LastOfKind(env, file, n, e.ordinal) && EntryOf(env, file, e))
    && LocatedBy(env, file, n, context.location)
  }

  /** What a line contributes under this number, after a context. */
  ghost predicate ObservedAs(env: Env, file: string, n: nat, line: string, o: Observation)
  {
    && o.ordinal == n + 1 && o.data == DataOf(env, line)
    && Rising(o.context)
    && (forall e :: e in o.context <==>
          && LastOfKind(env, file, n, e.ordinal) && EntryOf(env, file, e)
          && (IsContext(env, line) ==> e.kind != KindOf(env, line)))
    && (if DirectoryOf(env, line) != "" then o.location == Some(env.locate(DirectoryOf(env, line)))
        else LocatedBy(env, file, n, o.location))
  }

  // ----- filtering -----

  lemma {:induction false} WithoutKind(records: seq<Entry>, kind: Units)
    requires Rising(records)
    ensures forall e :: e in Without(records, kind) <==> e in records && e.kind != kind
    ensures Rising(Without(records, kind))
  {
    if records != [] {
      var front, last := records[..|records| - 1], records[|records| - 1];
      assert records == front + [last];
      WithoutKind(front, kind);
      var rest := Without(front, kind);
      forall i | 0 <= i < |rest|
        ensures rest[i].ordinal < last.ordinal
      {
        assert rest[i] in rest;
        assert rest[i] in front;
      }
    }
  }

  lemma {:induction false} BeforeOrdinal(records: seq<Entry>, ordinal: nat)
    requires Rising(records)
    ensures forall e :: e in Before(records, ordinal) <==> e in records && e.ordinal != ordinal
    ensures Rising(Before(records, ordinal))
  {
    if records != [] {
      var front, last := records[..|records| - 1], records[|records| - 1];
      assert records == front + [last];
      BeforeOrdinal(front, ordinal);
      var rest := Before(front, ordinal);
      forall i | 0 <= i < |rest|
        ensures rest[i].ordinal < last.ordinal
      {
        assert rest[i] in rest;
        assert rest[i] in front;
      }
    }
  }

  // ----- one line -----

  lemma Classified(env: Env, line: string)
    ensures IsContext(env, line) <==> ParseLine(line).Some? && ContextRecord(env.harness, env.clean(ParseLine(line).value).strings)
    ensures IsUsage(env, line) <==> ParseLine(line).Some? && UsageRecord(env.harness, env.clean(ParseLine(line).value).strings)
  {
    hide ParseLine, Ascii;
    if ParseLine(line).Some? {
      assert Holds(env, line, env.clean(ParseLine(line).value));
    }
  }

  /** The records after a line: its own at the end if it is a context line, in place of
      the one of its kind. */
  lemma RecordsAfter(env: Env, c: Cursor, line: string)
    requires Rising(c.context.records) && forall e :: e in c.context.records ==> e.ordinal <= c.ordinal
    ensures var records := Extracted(env, c, line).0.records;
            && Rising(records)
            && (forall e :: e in records <==>
                  if IsContext(env, line)
                  then (e in c.context.records && e.kind != KindOf(env, line)) ||
                       e == Entry(c.ordinal + 1, KindOf(env, line), DataOf(env, line))
                  else e in c.context.records)
  {
    Classified(env, line);
    hide ParseLine, UsageRecord, ContextRecord, Without, Before, IsContext, IsUsage;
    if IsContext(env, line) {
      var kind := KindOf(env, line);
      WithoutKind(c.context.records, kind);
      var kept := Without(c.context.records, kind);
      assert forall i :: 0 <= i < |kept| ==> kept[i] in kept;
    }
  }

  lemma LocationAfter(env: Env, c: Cursor, line: string)
    ensures Extracted(env, c, line).0.location ==
            if DirectoryOf(env, line) != "" then Some(env.locate(DirectoryOf(env, line))) else c.context.location
  {
    Classified(env, line);
    hide ParseLine, UsageRecord, ContextRecord, Without, Before, IsContext, IsUsage;
  }

  lemma ObservationAfter(env: Env, c: Cursor, line: string)
    requires Rising(c.context.records) && forall e :: e in c.context.records ==> e.ordinal <= c.ordinal
    ensures var (context, o) := Extracted(env, c, line);
            && (o.Some? <==> IsContext(env, line) || IsUsage(env, line))
            && (o.Some? ==>
                  && o.value.source == c.source && o.value.lineage == c.lineage && o.value.ordinal == c.ordinal + 1
                  && o.value.data == DataOf(env, line) && o.value.location == context.location && Rising(o.value.context)
                  && forall e :: e in o.value.context <==> e in context.records && e.ordinal != c.ordinal + 1)
  {
    RecordsAfter(env, c, line);
    Classified(env, line);
    hide ParseLine, UsageRecord, ContextRecord, Without, Before, IsContext, IsUsage, Rising;
    BeforeOrdinal(Extracted(env, c, line).0.records, c.ordinal + 1);
  }

  lemma KnownOrdinals(env: Env, file: string, n: nat, context: Context)
    requires ContextIs(env, file, n, context)
    ensures Rising(context.records) && forall e :: e in context.records ==> e.ordinal <= n
  {
  }

  /** The contract of extraction, in terms of the lines of the file. */
  lemma ExtractionIs(env: Env, file: string, c: Cursor, line: string)
    requires ContextIs(env, file, c.ordinal, c.context)
    ensures var o := Extracted(env, c, line).1;
            && (o.Some? <==> IsContext(env, line) || IsUsage(env, line))
            && (o.Some? ==> o.value.source == c.source && o.value.lineage == c.lineage && ObservedAs(env, file, c.ordinal, line, o.value))
  {
    hide Extracted, IsContext, IsUsage, DirectoryOf, KindOf, DataOf, LocatedBy, EntryOf, LastOfKind, ContextIs, Rising;
    KnownOrdinals(env, file, c.ordinal, c.context);
    KnownLocation(env, file, c.ordinal, c.context);
    RecordsAfter(env, c, line);
    LocationAfter(env, c, line);
    ObservationAfter(env, c, line);
    var o := Extracted(env, c, line).1;
    if o.Some? {
      forall e
        ensures e in o.value.context <==>
                  && LastOfKind(env, file, c.ordinal, e.ordinal) && EntryOf(env, file, e)
                  && (IsContext(env, line) ==> e.kind != KindOf(env, line))
      {
        EntryIn(env, file, c.ordinal, c.context, e);
        NotYet(env, file, c.ordinal);
      }
    }
  }

  lemma KnownLocation(env: Env, file: string, n: nat, context: Context)
    requires ContextIs(env, file, n, context)
    ensures LocatedBy(env, file, n, context.location)
  {
  }

  // ----- every cursor -----

  lemma ContextBegins(env: Env, file: string)
    ensures ContextIs(env, file, 0, NO_CONTEXT)
  {
  }

  lemma LastOfKindNext(env: Env, file: string, n: nat, m: nat)
    ensures LastOfKind(env, file, n + 1, m) <==>
            if m == n + 1 then IsContext(env, NthLine(file, m))
            else LastOfKind(env, file, n, m) &&
                 (IsContext(env, NthLine(file, n + 1)) ==> KindOf(env, NthLine(file, n + 1)) != KindOf(env, NthLine(file, m)))
  {
    hide IsContext, KindOf, NthLine;
  }

  lemma LocatedNext(env: Env, file: string, n: nat, location: Option<string>)
    requires LocatedBy(env, file, n, location)
    ensures var d := DirectoryOf(env, NthLine(file, n + 1));
            LocatedBy(env, file, n + 1, if d != "" then Some(env.locate(d)) else location)
  {
    hide DirectoryOf, NthLine;
    if DirectoryOf(env, NthLine(file, n + 1)) == "" && location.Some? {
      var m :| 1 <= m <= n && DirectoryOf(env, NthLine(file, m)) != "" && location.value == env.locate(DirectoryOf(env, NthLine(file, m))) &&
        forall k :: m < k <= n ==> DirectoryOf(env, NthLine(file, k)) == "";
      assert forall k :: m < k <= n + 1 ==> DirectoryOf(env, NthLine(file, k)) == "";
    }
  }

  lemma EntryIn(env: Env, file: string, n: nat, context: Context, e: Entry)
    requires ContextIs(env, file, n, context)
    ensures e in context.records <==> LastOfKind(env, file, n, e.ordinal) && EntryOf(env, file, e)
  {
  }

  lemma EntryNext(env: Env, file: string, c: Cursor, e: Entry)
    requires ContextIs(env, file, c.ordinal, c.context)
    ensures e in Extracted(env, c, NthLine(file, c.ordinal + 1)).0.records <==>
            LastOfKind(env, file, c.ordinal + 1, e.ordinal) && EntryOf(env, file, e)
  {
    hide Extracted, IsContext, IsUsage, KindOf, DataOf, NthLine, LastOfKind, ContextIs;
    KnownOrdinals(env, file, c.ordinal, c.context);
    RecordsAfter(env, c, NthLine(file, c.ordinal + 1));
    EntryIn(env, file, c.ordinal, c.context, e);
    LastOfKindNext(env, file, c.ordinal, e.ordinal);
    NotYet(env, file, c.ordinal);
  }

  lemma LocationNext(env: Env, file: string, c: Cursor)
    requires ContextIs(env, file, c.ordinal, c.context)
    ensures LocatedBy(env, file, c.ordinal + 1, Extracted(env, c, NthLine(file, c.ordinal + 1)).0.location)
  {
    hide Extracted, DirectoryOf, NthLine, LocatedBy;
    LocationAfter(env, c, NthLine(file, c.ordinal + 1));
    LocatedNext(env, file, c.ordinal, c.context.location);
  }

  /** One more line: the context after it is that of one more line. */
  lemma ContextNext(env: Env, file: string, c: Cursor)
    requires ContextIs(env, file, c.ordinal, c.context)
    ensures ContextIs(env, file, c.ordinal + 1, Extracted(env, c, NthLine(file, c.ordinal + 1)).0)
  {
    KnownOrdinals(env, file, c.ordinal, c.context);
    RecordsAfter(env, c, NthLine(file, c.ordinal + 1));
    LocationNext(env, file, c);
    hide Extracted, NthLine, LocatedBy, LastOfKind, EntryOf, Rising, IsContext, KindOf, DataOf;
    forall e
      ensures e in Extracted(env, c, NthLine(file, c.ordinal + 1)).0.records <==>
              LastOfKind(env, file, c.ordinal + 1, e.ordinal) && EntryOf(env, file, e)
    {
      EntryNext(env, file, c, e);
    }
  }

  lemma NotYet(env: Env, file: string, n: nat)
    ensures !LastOfKind(env, file, n, n + 1)
  {
  }

  /** A terminated line moves the cursor by what it contributes, even one that is skipped. */
  lemma MovedByItsLine(env: Env, file: string, c: Cursor)
    requires CleansStrings(env) && c.offset <= |file| && StepLine(env, file, c).Moved?
    ensures var line := FirstLine(file[c.offset..]);
            var step := StepLine(env, file, c);
            && step.next.context == Extracted(env, c, line).0 && step.observation == Extracted(env, c, line).1
            && step.next.offset == c.offset + |line|
  {
    hide Extracted, Complete, ParseLine, Skippable, FirstLine, LineLength, StepLine, CleansStrings;
    StepUnfolded(env, file, c);
    ReadConsumes(env.harness, file[c.offset..]);
    SkippedIsSkippable(env.harness, file[c.offset..]);
    if Skippable(env.harness, FirstLine(file[c.offset..])) {
      SkippedIsNothing(env, c, FirstLine(file[c.offset..]));
    }
  }

  lemma SkippedIsSkippable(h: Harness, rest: string)
    ensures ReadLine(h, rest).Skipped? ==> Skippable(h, FirstLine(rest))
  {
    hide Skippable, FirstLine, LineLength, ParseLine;
  }

  /** The cursor a line earlier. */
  lemma {:induction false} AfterShorter(env: Env, file: string, c: Cursor, n: nat)
    requires After(env, file, c, n + 1).Some?
    ensures After(env, file, c, n).Some?
    ensures var end := After(env, file, c, n).value.0; end.offset <= |file| && StepLine(env, file, end).Moved?
    decreases n
  {
    hide StepLine;
    if n > 0 {
      AfterShorter(env, file, StepLine(env, file, c).next, n - 1);
    } else {
      assert After(env, file, c, 1).Some?;
    }
  }

  lemma ReachedBefore(env: Env, file: string, source: string, c: Cursor) returns (b: Cursor)
    requires Reached(env, file, source, c) && c.ordinal > 0
    ensures Reached(env, file, source, b) && b.ordinal + 1 == c.ordinal && b.lineage == c.lineage && b.offset <= |file|
    ensures StepLine(env, file, b).Moved? && StepLine(env, file, b).next == c
    ensures UpTo(env, file, source, c) == UpTo(env, file, source, b) + OfOption(StepLine(env, file, b).observation)
  {
    hide StepLine;
    var begin := Beginning(source, c.lineage);
    AfterShorter(env, file, begin, c.ordinal - 1);
    b := After(env, file, begin, c.ordinal - 1).value.0;
    AfterMoves(env, file, begin, c.ordinal - 1);
    AfterOne(env, file, begin, c.ordinal - 1);
  }

  predicate RestIs(file: string, c: Cursor)
  {
    c.offset <= |file| && file[c.offset..] == Beyond(file, c.ordinal)
  }

  lemma RestNext(file: string, b: Cursor, c: Cursor)
    requires RestIs(file, b) && c.offset == b.offset + |NthLine(file, b.ordinal + 1)| && c.ordinal == b.ordinal + 1
    ensures RestIs(file, c)
  {
    NthIsNext(file, b.ordinal);
    hide Beyond, FirstLine, NthLine;
    assert file[c.offset..] == file[b.offset..][c.offset - b.offset..];
  }

  lemma LineNext(file: string, b: Cursor)
    requires RestIs(file, b)
    ensures b.offset <= |file| && FirstLine(file[b.offset..]) == NthLine(file, b.ordinal + 1)
  {
    NthIsNext(file, b.ordinal);
    hide Beyond, FirstLine, NthLine;
  }

  /** A step of the parse keeps cursor and lines together. */
  lemma CursorNext(env: Env, file: string, b: Cursor)
    requires CleansStrings(env) && RestIs(file, b) && ContextIs(env, file, b.ordinal, b.context)
    requires b.offset <= |file| && StepLine(env, file, b).Moved? && StepLine(env, file, b).next.ordinal == b.ordinal + 1
    ensures var c := StepLine(env, file, b).next; RestIs(file, c) && ContextIs(env, file, c.ordinal, c.context)
  {
    hide Extracted, StepLine, ContextIs, CleansStrings, FirstLine, Beyond, NthLine, RestIs;
    LineNext(file, b);
    MovedByItsLine(env, file, b);
    ContextNext(env, file, b);
    RestNext(file, b, StepLine(env, file, b).next);
  }

  /** Whatever was skipped, refreshed or resumed on the way: a cursor reached after n lines
      holds the last context line of each kind among them, in their order and each under
      its own number, and the location of the last directory they named. */
  lemma {:induction false} ContextIsLatestOfEachKind(env: Env, file: string, source: string, c: Cursor)
    requires CleansStrings(env) && Reached(env, file, source, c)
    ensures RestIs(file, c) && ContextIs(env, file, c.ordinal, c.context)
    decreases c.ordinal
  {
    if c.ordinal == 0 {
      assert c == Beginning(source, c.lineage);
      ContextBegins(env, file);
    } else {
      hide Extracted, StepLine, Reached, ContextIs, CleansStrings, RestIs;
      var b := ReachedBefore(env, file, source, c);
      ContextIsLatestOfEachKind(env, file, source, b);
      CursorNext(env, file, b);
    }
  }

  /** At most one entry is held of each kind. */
  lemma OneEntryOfEachKind(env: Env, file: string, n: nat, context: Context, i: nat, k: nat)
    requires ContextIs(env, file, n, context) && i < k < |context.records|
    ensures context.records[i].kind != context.records[k].kind
  {
    hide IsContext, KindOf, DataOf, NthLine, LocatedBy;
    assert context.records[i] in context.records && context.records[k] in context.records;
    assert LastOfKind(env, file, n, context.records[k].ordinal);
  }

  // ----- every record -----

  /** o is what line n of the file, ended or not yet ended, says. */
  ghost predicate RecordOf(env: Env, file: string, source: string, lineage: string, n: nat, line: string, o: Observation)
  {
    && n > 0 && NoNewline(line) && (NthLine(file, n) == line || NthLine(file, n) == line + "\n")
    && o.source == source && o.lineage == lineage
    && (IsContext(env, line) || IsUsage(env, line)) && ObservedAs(env, file, n - 1, line, o)
  }

  lemma WitnessedIsRecord(env: Env, file: string, source: string, o: Observation, c: Cursor, t: string)
    requires CleansStrings(env) && Witnessed(env, file, source, o, c, t)
    ensures RecordOf(env, file, source, c.lineage, c.ordinal + 1, t, o)
  {
    hide Extracted, Reached, ContextIs, CleansStrings, ParseLine, FirstLine, NoNewline, ObservedAs, IsContext, IsUsage, Beyond, NthLine,
         RestIs;
    ContextIsLatestOfEachKind(env, file, source, c);
    ReachedShape(env, file, source, c);
    ExtractionIs(env, file, c, t);
    LineNext(file, c);
  }

  lemma NthIsNext(file: string, n: nat)
    ensures NthLine(file, n + 1) == FirstLine(Beyond(file, n))
    ensures |FirstLine(Beyond(file, n))| <= |Beyond(file, n)|
    ensures Beyond(file, n + 1) == Beyond(file, n)[|FirstLine(Beyond(file, n))|..]
  {
  }

  /** In every run each recorded observation is of one line of the file, of the source, and
      carries exactly the last context line of each other kind before its own, in order,
      and the location last named up to and including it. */
  lemma RecordedCarryTheirContext(env: Env, source: string, file: string, events: seq<Event>, o: Observation)
    returns (n: nat, line: string)
    requires CleansStrings(env) && o in Run(env, source, file, events).recorded
    ensures var w := Run(env, source, file, events);
            && w.checkpoint.Some? && RecordOf(env, w.file, source, w.checkpoint.value.lineage, n, line, o)
  {
    RunsKeepWorld(env, source, file, events);
    var w := Run(env, source, file, events);
    hide Run, Reached, UpTo, PreparedOk, Witnessed, RecordOf, CleansStrings;
    var lineage := w.checkpoint.value.lineage;
    assert Confirmable(env, w.file, source, lineage, o);
    var c: Cursor, t: string :| c.lineage == lineage && Witnessed(env, w.file, source, o, c, t);
    WitnessedIsRecord(env, w.file, source, o, c, t);
    n, line := c.ordinal + 1, t;
  }

  /** Conversely every usage or context line before a cursor contributed its observation. */
  lemma {:induction false} EveryLineIsObserved(env: Env, file: string, source: string, c: Cursor, n: nat) returns (o: Observation)
    requires CleansStrings(env) && Reached(env, file, source, c) && 1 <= n <= c.ordinal
    requires IsContext(env, NthLine(file, n)) || IsUsage(env, NthLine(file, n))
    ensures o in UpTo(env, file, source, c)
    ensures o.source == source && o.lineage == c.lineage && ObservedAs(env, file, n - 1, NthLine(file, n), o)
    decreases c.ordinal
  {
    hide Extracted, StepLine, Reached, ContextIs, CleansStrings, FirstLine, ObservedAs, IsContext, IsUsage, UpTo, Beyond, RestIs;
    var b := ReachedBefore(env, file, source, c);
    if n < c.ordinal {
      o := EveryLineIsObserved(env, file, source, b, n);
    } else {
      ContextIsLatestOfEachKind(env, file, source, b);
      ReachedShape(env, file, source, b);
      MovedByItsLine(env, file, b);
      LineNext(file, b);
      ExtractionIs(env, file, b, NthLine(file, n));
      o := StepLine(env, file, b).observation.value;
    }
  }

  /** In every run each usage or context line before the saved cursor is recorded. */
  lemma SavedLinesAreRecorded(env: Env, source: string, file: string, events: seq<Event>, n: nat) returns (o: Observation)
    requires CleansStrings(env) && Run(env, source, file, events).checkpoint.Some?
    requires 1 <= n <= Run(env, source, file, events).checkpoint.value.ordinal
    requires var line := NthLine(Run(env, source, file, events).file, n); IsContext(env, line) || IsUsage(env, line)
    ensures var w := Run(env, source, file, events);
            && o in w.recorded && o.source == source && o.lineage == w.checkpoint.value.lineage
            && ObservedAs(env, w.file, n - 1, NthLine(w.file, n), o)
  {
    RunsKeepWorld(env, source, file, events);
    var w := Run(env, source, file, events);
    hide Run, Reached, UpTo, PreparedOk, Confirmable, ObservedAs, CleansStrings, IsContext, IsUsage, NthLine;
    o := EveryLineIsObserved(env, w.file, source, w.checkpoint.value, n);
  }
}
