/** Capturing while the source grows: parses and commits interleave freely, and a commit
    is refused if the checkpoint or the captured bytes changed since its parse. */
module CaptureRuns {
  import opened Basics
  import opened Candidates
  import opened JsonGrammar
  import opened JsonTheorems
  import opened Discriminators
  import opened LineReader
  import opened Capture

  // ----- committing -----

  datatype CommitError = CheckpointChanged | SourceChanged

  function Recorded(recorded: seq<Observation>, staged: seq<Observation>): seq<Observation>
  {
    if staged == [] then recorded
    else
      var rest := Recorded(recorded, staged[..|staged| - 1]);
      var last := staged[|staged| - 1];
      if last in rest then rest else rest + [last]
  }

  datatype Committed = Committed(checkpoint: Option<Cursor>, recorded: seq<Observation>, result: Result<nat, CommitError>)

  function CommitSpec(checkpoint: Option<Cursor>, recorded: seq<Observation>, p: Prepared, file: string): Committed
  {
    if checkpoint != p.baseline then Committed(checkpoint, recorded, Err(CheckpointChanged))
    else if p.verified > |file| || file[..p.verified] != p.seen then Committed(checkpoint, recorded, Err(SourceChanged))
    else
      var after := Recorded(recorded, p.staged);
      Committed(Some(p.cursor), after, Ok(if |after| >= |recorded| then |after| - |recorded| else 0))
  }

  lemma {:induction false} RecordedIsUnion(recorded: seq<Observation>, staged: seq<Observation>)
    ensures forall o :: o in Recorded(recorded, staged) <==> o in recorded || o in staged
    ensures |Recorded(recorded, staged)| >= |recorded|
  {
    if staged != [] {
      RecordedIsUnion(recorded, staged[..|staged| - 1]);
      assert staged == staged[..|staged| - 1] + [staged[|staged| - 1]];
    }
  }

  /** A commit takes place exactly if no other came since the parse began and the file
      still begins with all that the parse read; otherwise nothing is saved. */
  lemma CommitIsFenced(checkpoint: Option<Cursor>, recorded: seq<Observation>, p: Prepared, file: string)
    requires |p.seen| == p.verified
    ensures var c := CommitSpec(checkpoint, recorded, p, file);
            && (c.result.Ok? <==> checkpoint == p.baseline && p.seen <= file)
            && (c.result.Err? ==> c.checkpoint == checkpoint && c.recorded == recorded &&
                                  c.result.error == if checkpoint != p.baseline then CheckpointChanged else SourceChanged)
            && (c.result.Ok? ==>
                  && c.checkpoint == Some(p.cursor) && |c.recorded| == |recorded| + c.result.value
                  && forall o :: o in c.recorded <==> o in recorded || o in p.staged)
  {
    RecordedIsUnion(recorded, p.staged);
    if p.seen <= file {
      assert file[..p.verified] == p.seen;
    }
    hide Recorded;
  }

  class CaptureStore {
    var checkpoint: Option<Cursor>
    var recorded: seq<Observation>

    constructor ()
      ensures checkpoint == None && recorded == []
    {
      checkpoint, recorded := None, [];
    }

    /** One transaction: all staged observations and the checkpoint, or nothing. */
    method Commit(p: Prepared, file: string) returns (r: Result<nat, CommitError>)
      modifies this
      ensures Committed(checkpoint, recorded, r) == CommitSpec(old(checkpoint), old(recorded), p, file)
    {
      if checkpoint != p.baseline {
        return Err(CheckpointChanged);
      }
      var outbox := recorded;
      var count := 0;
      var i := 0;
      while i < |p.staged|
        invariant 0 <= i <= |p.staged|
        invariant outbox == Recorded(recorded, p.staged[..i]) && count == |outbox| - |recorded|
      {
        assert p.staged[..i + 1][..i] == p.staged[..i];
        if p.staged[i] !in outbox {
          outbox := outbox + [p.staged[i]];
          count := count + 1;
        }
        i := i + 1;
      }
      assert p.staged[..i] == p.staged;
      if p.verified > |file| || file[..p.verified] != p.seen {
        return Err(SourceChanged);
      }
      recorded := outbox;
      checkpoint := Some(p.cursor);
      r := Ok(count);
    }
  }

  // ----- runs -----

  datatype World = World(file: string, checkpoint: Option<Cursor>, recorded: seq<Observation>, prepared: set<Prepared>)

  datatype Event = Appending(text: string) | Preparing(lineage: string, refresh: bool) | Committing(p: Prepared)

  /** Where a line begins. */
  predicate LineStart(file: string, k: nat)
  {
    k <= |file| && (k == 0 || file[k - 1] == '\n')
  }

  /** A complete object at the end of the file is next ended by a newline. */
  predicate EndsComplete(file: string, text: string)
  {
    forall k :: 0 <= k <= |file| && LineStart(file, k) && NoNewline(file[k..]) && ParseLine(file[k..]).Some? ==>
      text == "" || text[0] == '\n'
  }

  ghost function Next(env: Env, source: string, w: World, event: Event): World
  {
    match event
    case Appending(text) => if EndsComplete(w.file, text) then w.(file := w.file + text) else w
    case Preparing(lineage, refresh) =>
      (match Prepare(env, w.file, w.checkpoint, source, lineage, refresh)
       case Err(_) => w
       case Ok(p) => w.(prepared := w.prepared + {p}))
    case Committing(p) =>
      if p !in w.prepared then w
      else
        var c := CommitSpec(w.checkpoint, w.recorded, p, w.file);
        w.(checkpoint := c.checkpoint, recorded := c.recorded)
  }

  ghost function Run(env: Env, source: string, file: string, events: seq<Event>): World
  {
    if events == [] then World(file, None, [], {})
    else Next(env, source, Run(env, source, file, events[..|events| - 1]), events[|events| - 1])
  }

  // ----- reaching a cursor -----

  /** The cursor and the observations after n terminated lines. */
  ghost function After(env: Env, file: string, c: Cursor, n: nat): Option<(Cursor, seq<Observation>)>
    decreases n
  {
    if n == 0 then Some((c, []))
    else if c.offset > |file| || !StepLine(env, file, c).Moved? then None
    else
      match After(env, file, StepLine(env, file, c).next, n - 1)
      case None => None
      case Some((end, obs)) => Some((end, OfOption(StepLine(env, file, c).observation) + obs))
  }

  /** A cursor is reached after as many lines as its ordinal says. */
  ghost predicate Reached(env: Env, file: string, source: string, c: Cursor)
  {
    var r := After(env, file, Beginning(source, c.lineage), c.ordinal);
    r.Some? && r.value.0 == c
  }

  ghost function UpTo(env: Env, file: string, source: string, c: Cursor): seq<Observation>
    requires Reached(env, file, source, c)
  {
    After(env, file, Beginning(source, c.lineage), c.ordinal).value.1
  }

  lemma {:induction false} AfterMoves(env: Env, file: string, c: Cursor, n: nat)
    requires c.offset <= |file| && c.prefix == file[..c.offset] && LineStart(file, c.offset)
    requires After(env, file, c, n).Some?
    ensures var end := After(env, file, c, n).value.0;
            c.offset <= end.offset <= |file| && end.prefix == file[..end.offset] && LineStart(file, end.offset) &&
            end.ordinal == c.ordinal + n && end.source == c.source && end.lineage == c.lineage
    decreases n
  {
    hide StepLine;
    if n > 0 {
      StepMoves(env, file, c);
      AfterMoves(env, file, StepLine(env, file, c).next, n - 1);
    }
  }

  /** A saved cursor stands at the start of a line, has counted the lines before it and
      hashed exactly the bytes before it. */
  lemma ReachedShape(env: Env, file: string, source: string, c: Cursor)
    requires Reached(env, file, source, c)
    ensures c.offset <= |file| && c.prefix == file[..c.offset] && LineStart(file, c.offset) && c.source == source
  {
    AfterMoves(env, file, Beginning(source, c.lineage), c.ordinal);
  }

  lemma {:induction false} AfterOne(env: Env, file: string, c: Cursor, n: nat)
    requires After(env, file, c, n).Some?
    requires After(env, file, c, n).value.0.offset <= |file| && StepLine(env, file, After(env, file, c, n).value.0).Moved?
    ensures var (end, obs) := After(env, file, c, n).value;
            var step := StepLine(env, file, end);
            After(env, file, c, n + 1) == Some((step.next, obs + OfOption(step.observation)))
    decreases n
  {
    hide StepLine;
    if n > 0 {
      AfterOne(env, file, StepLine(env, file, c).next, n - 1);
      var (end, obs) := After(env, file, StepLine(env, file, c).next, n - 1).value;
      var first, last := OfOption(StepLine(env, file, c).observation), OfOption(StepLine(env, file, end).observation);
      assert first + (obs + last) == first + obs + last;
    } else {
      var step := StepLine(env, file, c);
      assert After(env, file, step.next, 0) == Some((step.next, []));
      assert OfOption(step.observation) + [] == OfOption(step.observation);
      assert [] + OfOption(step.observation) == OfOption(step.observation);
    }
  }

  lemma ReachedNext(env: Env, file: string, source: string, c: Cursor)
    requires Reached(env, file, source, c) && c.offset <= |file| && StepLine(env, file, c).Moved?
    ensures var step := StepLine(env, file, c);
            Reached(env, file, source, step.next) &&
            UpTo(env, file, source, step.next) == UpTo(env, file, source, c) + OfOption(step.observation)
  {
    hide StepLine;
    AfterOne(env, file, Beginning(source, c.lineage), c.ordinal);
    StepMoves(env, file, c);
  }

  /** Passing lines only adds their observations to the rest of the scan. */
  lemma {:induction false} ScanAfter(env: Env, file: string, c: Cursor, n: nat)
    requires c.offset <= |file| && c.prefix == file[..c.offset] && LineStart(file, c.offset) && After(env, file, c, n).Some?
    ensures After(env, file, c, n).value.0.offset <= |file|
    ensures var (end, obs) := After(env, file, c, n).value;
            ScanFrom(env, file, c) == Prepended(obs, ScanFrom(env, file, end))
    decreases n
  {
    hide StepLine;
    AfterMoves(env, file, c, n);
    if n == 0 {
      NothingStaged(ScanFrom(env, file, c));
    } else {
      var step := StepLine(env, file, c);
      StepMoves(env, file, c);
      ScanAfter(env, file, step.next, n - 1);
      var (end, obs) := After(env, file, step.next, n - 1).value;
      var rest := ScanFrom(env, file, end);
      if rest.Ok? {
        assert OfOption(step.observation) + (obs + rest.value.settled) == OfOption(step.observation) + obs + rest.value.settled;
      }
    }
  }

  lemma ScanReached(env: Env, file: string, source: string, c: Cursor)
    requires Reached(env, file, source, c)
    ensures c.offset <= |file|
    ensures ScanFrom(env, file, Beginning(source, c.lineage)) == Prepended(UpTo(env, file, source, c), ScanFrom(env, file, c))
  {
    ReachedShape(env, file, source, c);
    ScanAfter(env, file, Beginning(source, c.lineage), c.ordinal);
  }

  // ----- growth -----

  lemma {:induction false} LineStable(s: string, more: string)
    requires Terminated(FirstLine(s))
    ensures FirstLine(s + more) == FirstLine(s)
  {
    if s[0] == '\n' {
      assert (s + more)[..1] == s[..1];
    } else {
      assert FirstLine(s) == [s[0]] + FirstLine(s[1..]);
      LineStable(s[1..], more);
      assert (s + more)[1..] == s[1..] + more;
      assert FirstLine(s + more) == [s[0]] + FirstLine(s[1..] + more);
    }
  }

  lemma StepStable(env: Env, file: string, more: string, c: Cursor)
    requires c.offset <= |file| && StepLine(env, file, c).Moved?
    ensures StepLine(env, file + more, c) == StepLine(env, file, c)
  {
    hide ParseLine, Skippable, Extracted, Complete, FirstLine, LineLength;
    assert (file + more)[c.offset..] == file[c.offset..] + more;
    LineFits(file, c.offset);
    LineStable(file[c.offset..], more);
    assert forall n :: 0 <= n <= |file| ==> (file + more)[..n] == file[..n];
  }

  lemma {:induction false} AfterStable(env: Env, file: string, more: string, c: Cursor, n: nat)
    requires After(env, file, c, n).Some?
    ensures After(env, file + more, c, n) == After(env, file, c, n)
    decreases n
  {
    hide StepLine;
    if n > 0 {
      StepStable(env, file, more, c);
      AfterStable(env, file, more, StepLine(env, file, c).next, n - 1);
    }
  }

  lemma ReachedStable(env: Env, file: string, more: string, source: string, c: Cursor)
    requires Reached(env, file, source, c)
    ensures Reached(env, file + more, source, c) && UpTo(env, file + more, source, c) == UpTo(env, file, source, c)
  {
    AfterStable(env, file, more, Beginning(source, c.lineage), c.ordinal);
  }

  // ----- a newline changes nothing -----

  lemma {:induction false} MembersEndWithBrace(ms: seq<Member>)
    requires ms != []
    ensures ShowMembers(ms) != "" && ShowMembers(ms)[|ShowMembers(ms)| - 1] == '}'
    decreases |ms|
  {
    hide Show, ShowPieces;
    if |ms| > 1 {
      MembersEndWithBrace(ms[1..]);
    }
  }

  lemma ObjectEndsWithBrace(v: Json)
    requires v.Object?
    ensures Show(v) != "" && Show(v)[|Show(v)| - 1] == '}'
  {
    if v.members != [] {
      MembersEndWithBrace(v.members);
    }
  }

  lemma ObjectTextEnded(t: string, v: Json)
    ensures IsObjectText(t + "\n", v) <==> IsObjectText(t, v)
  {
    hide Show, WellFormed, Fits;
    if IsObjectText(t, v) {
      var before: string, after: string :| AllSpace(before) && AllSpace(after) && t == before + Show(v) + after;
      assert t + "\n" == before + Show(v) + (after + "\n") && AllSpace(after + "\n");
    }
    if IsObjectText(t + "\n", v) {
      var before: string, after: string :| AllSpace(before) && AllSpace(after) && t + "\n" == before + Show(v) + after;
      ObjectEndsWithBrace(v);
      var whole := before + Show(v) + after;
      assert whole[|t|] == '\n' && |whole| == |t| + 1;
      var body := before + Show(v);
      assert body[|body| - 1] == '}' && body != whole;
      var shorter := after[..|after| - 1];
      assert t == whole[..|t|] && whole[..|t|] == before + Show(v) + shorter;
      assert AllSpace(shorter);
    }
  }

  lemma ParseEnded(t: string)
    ensures ParseLine(t + "\n") == ParseLine(t)
  {
    hide ParseLine, IsObjectText;
    forall v
      ensures ParseLine(t + "\n") == Some(v) <==> ParseLine(t) == Some(v)
    {
      ReadingIsGrammar(t, v);
      ReadingIsGrammar(t + "\n", v);
      ObjectTextEnded(t, v);
    }
    if ParseLine(t).Some? {
      assert ParseLine(t) == Some(ParseLine(t).value);
    }
    if ParseLine(t + "\n").Some? {
      assert ParseLine(t + "\n") == Some(ParseLine(t + "\n").value);
    }
  }

  lemma ExtractedEnded(env: Env, c: Cursor, t: string)
    ensures Extracted(env, c, t + "\n") == Extracted(env, c, t)
  {
    hide ParseLine, WithContext, Before;
    ParseEnded(t);
  }

  // ----- recorded observations -----

  /** Cleaning keeps the discriminators of a record or blanks them. */
  ghost predicate CleansStrings(env: Env)
  {
    forall v: Json {:trigger env.clean(v)} :: v.Object? && WellFormed(v) ==> Cleaned(FullStrings(v), env.clean(v).strings)
  }

  /** A skipped line would have contributed nothing. */
  lemma SkippedIsNothing(env: Env, c: Cursor, line: string)
    requires CleansStrings(env) && Skippable(env.harness, line)
    ensures Extracted(env, c, line) == (c.context, None)
  {
    hide FullStrings, NoteMembers, Irrelevant, UsageRecord, ContextRecord, Cleaned, Show, Fits, WellFormed;
    var v := ParseLine(line).value;
    ReadingIsGrammar(line, v);
    SkippingIsSound(env.harness, v, env.clean(v).strings);
  }

  /** The line after c holds the complete object t, ended or not yet ended. */
  predicate HoldsLine(file: string, c: Cursor, t: string)
  {
    c.offset <= |file| && NoNewline(t) && (FirstLine(file[c.offset..]) == t || FirstLine(file[c.offset..]) == t + "\n")
  }

  ghost predicate Witnessed(env: Env, file: string, source: string, o: Observation, c: Cursor, t: string)
  {
    && Reached(env, file, source, c) && HoldsLine(file, c, t)
    && |t| <= MAX_LINE_BYTES && ParseLine(t).Some? && Extracted(env, c, t).1 == Some(o)
  }

  /** The observation is what some line of the file contributes. */
  ghost predicate Confirmable(env: Env, file: string, source: string, lineage: string, o: Observation)
  {
    exists c: Cursor, t: string :: c.lineage == lineage && Witnessed(env, file, source, o, c, t)
  }

  lemma LineOfRest(s: string)
    requires NoNewline(s)
    ensures FirstLine(s) == s && !Terminated(s)
  {
    LineIs(s, |s|);
  }

  lemma LineEnded(t: string, more: string)
    requires NoNewline(t) && (more == "" || more[0] == '\n')
    ensures FirstLine(t + more) == if more == "" then t else t + "\n"
  {
    LineIs(t + more, |t|);
    assert (t + more)[..|t|] == t;
  }

  lemma ConfirmableStable(env: Env, file: string, more: string, source: string, lineage: string, o: Observation)
    requires Confirmable(env, file, source, lineage, o) && EndsComplete(file, more)
    ensures Confirmable(env, file + more, source, lineage, o)
  {
    hide ParseLine, Extracted, FirstLine, Terminated;
    var c: Cursor, t: string :| c.lineage == lineage && Witnessed(env, file, source, o, c, t);
    ReachedStable(env, file, more, source, c);
    ReachedShape(env, file, source, c);
    var rest := file[c.offset..];
    assert (file + more)[c.offset..] == rest + more;
    EitherEnded(rest);
    if FirstLine(rest) == t + "\n" {
      EndedLine(t);
      LineStable(rest, more);
    } else {
      UnendedLine(t);
      assert rest == t && file[c.offset..] == t;
      LineEnded(t, more);
    }
    assert Witnessed(env, file + more, source, o, c, t);
  }

  lemma EitherEnded(rest: string)
    ensures !Terminated(FirstLine(rest)) ==> FirstLine(rest) == rest
  {
    LineShape(rest);
  }

  lemma EndedLine(t: string)
    ensures Terminated(t + "\n")
  {
  }

  lemma UnendedLine(t: string)
    requires NoNewline(t)
    ensures !Terminated(t)
  {
  }

  /** What a terminated line contributes is confirmable. */
  lemma SettledConfirmable(env: Env, file: string, source: string, c: Cursor, o: Observation)
    requires Reached(env, file, source, c) && c.offset <= |file|
    requires StepLine(env, file, c).Moved? && StepLine(env, file, c).observation == Some(o)
    ensures Confirmable(env, file, source, c.lineage, o)
  {
    hide ParseLine, Extracted, LineLength, Reached;
    var line := FirstLine(file[c.offset..]);
    LineFits(file, c.offset);
    LineShape(file[c.offset..]);
    var t := line[..|line| - 1];
    assert line == t + "\n";
    ExtractedEnded(env, c, t);
    ObservedIsObject(env, c, t);
    assert Witnessed(env, file, source, o, c, t);
  }

  lemma ObservedIsObject(env: Env, c: Cursor, t: string)
    requires Extracted(env, c, t).1.Some?
    ensures ParseLine(t).Some?
  {
    hide ParseLine;
  }

  lemma TailConfirmable(env: Env, file: string, source: string, c: Cursor, o: Observation)
    requires Reached(env, file, source, c) && c.offset <= |file|
    requires StepLine(env, file, c).Stopped? && StepLine(env, file, c).tail == Some(o)
    ensures Confirmable(env, file, source, c.lineage, o)
  {
    hide ParseLine, Extracted, LineLength, Reached;
    var line := FirstLine(file[c.offset..]);
    LineFits(file, c.offset);
    LineShape(file[c.offset..]);
    ObservedIsObject(env, c, line);
    assert Witnessed(env, file, source, o, c, line);
  }

  /** Everything a scan stages is confirmable, and its cursor is reached with exactly what
      it settled. */
  lemma {:induction false} ScanConfirmable(env: Env, file: string, source: string, c: Cursor)
    requires Reached(env, file, source, c) && c.offset <= |file| && ScanFrom(env, file, c).Ok?
    ensures var s := ScanFrom(env, file, c).value;
            && Reached(env, file, source, s.cursor) && s.cursor.lineage == c.lineage
            && UpTo(env, file, source, s.cursor) == UpTo(env, file, source, c) + s.settled
            && (forall o :: o in s.settled || s.tail == Some(o) ==> Confirmable(env, file, source, c.lineage, o))
    decreases |file| - c.offset
  {
    hide StepLine, Reached, UpTo, Confirmable;
    var step := StepLine(env, file, c);
    match step
    case Limit =>
    case Stopped(tail, _) =>
      assert UpTo(env, file, source, c) + [] == UpTo(env, file, source, c);
      if tail.Some? {
        TailConfirmable(env, file, source, c, tail.value);
      }
    case Moved(next, observation) =>
      StepMoves(env, file, c);
      ReachedNext(env, file, source, c);
      ScanConfirmable(env, file, source, next);
      var rest := ScanFrom(env, file, next).value;
      assert UpTo(env, file, source, c) + (OfOption(observation) + rest.settled)
             == UpTo(env, file, source, c) + OfOption(observation) + rest.settled;
      if observation.Some? {
        SettledConfirmable(env, file, source, c, observation.value);
      }
  }

  // ----- the boundary -----

  /** What becomes of a complete object once its line is ended. */
  lemma EndedTail(env: Env, file: string, c: Cursor, t: string)
    requires c.offset <= |file| && file[c.offset..] == t && NoNewline(t) && ParseLine(t).Some? && |t| <= MAX_LINE_BYTES
    ensures StepLine(env, file, c) == Stopped(Extracted(env, c, t).1, |file|)
    ensures var ended := StepLine(env, file + "\n", c);
            if |t| < MAX_LINE_BYTES then ended.Moved? && ended.observation == Extracted(env, c, t).1
            else if Skippable(env.harness, t + "\n") then ended.Moved? && ended.observation == None
            else ended == Limit
  {
    hide ParseLine, Extracted, Skippable, FirstLine, LineLength, Terminated, NoNewline, StepLine, Advanced;
    LineOfRest(t);
    LineEnded(t, "\n");
    assert (file + "\n")[c.offset..] == t + "\n";
    ParseEnded(t);
    ExtractedEnded(env, c, t);
    EndedLine(t);
    NotEmpty(t);
    CompleteIs(env, t);
    StepUnfolded(env, file, c);
    StepUnfolded(env, file + "\n", c);
  }

  lemma CompleteIs(env: Env, t: string)
    requires ParseLine(t).Some?
    ensures Complete(env, t)
  {
  }

  lemma NotEmpty(t: string)
    requires ParseLine(t).Some?
    ensures t != ""
  {
  }

  /** A speculatively recorded object is confirmed by the newline that ends it exactly when
      its line stays within the limit with the newline, or is provably irrelevant. */
  lemma SpeculationConfirmed(env: Env, file: string, c: Cursor, t: string)
    requires CleansStrings(env)
    requires c.offset <= |file| && file[c.offset..] == t && NoNewline(t) && ParseLine(t).Some? && |t| <= MAX_LINE_BYTES
    ensures StepLine(env, file, c).Stopped?
    ensures (StepLine(env, file + "\n", c).Moved? && StepLine(env, file + "\n", c).observation == StepLine(env, file, c).tail)
            <==> |t| + 1 <= MAX_LINE_BYTES || Skippable(env.harness, t + "\n")
    ensures !StepLine(env, file + "\n", c).Moved? <==> StepLine(env, file + "\n", c) == Limit
  {
    hide ParseLine, Extracted, Skippable, NoNewline, StepLine;
    EndedTail(env, file, c, t);
    if Skippable(env.harness, t + "\n") {
      SkippedIsNothing(env, c, t + "\n");
      ExtractedEnded(env, c, t);
    }
  }

  /** A confirmable observation is staged by every full scan that succeeds. */
  lemma ConfirmedInFull(env: Env, file: string, source: string, lineage: string, o: Observation)
    requires CleansStrings(env) && Confirmable(env, file, source, lineage, o)
    requires ScanFrom(env, file, Beginning(source, lineage)).Ok?
    ensures var s := ScanFrom(env, file, Beginning(source, lineage)).value; o in s.settled || s.tail == Some(o)
  {
    hide StepLine, Extracted, ParseLine, FirstLine, UpTo, Skippable, NoNewline;
    var c: Cursor, t: string :| c.lineage == lineage && Witnessed(env, file, source, o, c, t);
    ScanReached(env, file, source, c);
    WitnessedStep(env, file, source, o, c, t);
    if StepLine(env, file, c).Moved? {
      StepMoves(env, file, c);
      assert o in OfOption(StepLine(env, file, c).observation);
      assert o in ScanFrom(env, file, c).value.settled;
    }
  }

  lemma WitnessedStep(env: Env, file: string, source: string, o: Observation, c: Cursor, t: string)
    requires CleansStrings(env) && Witnessed(env, file, source, o, c, t)
    ensures c.offset <= |file|
    ensures match StepLine(env, file, c)
            case Limit => true
            case Moved(_, observation) => observation == Some(o)
            case Stopped(tail, _) => tail == Some(o)
  {
    hide ParseLine, Extracted, Skippable, FirstLine, LineLength, Terminated, NoNewline, CleansStrings, StepLine, Reached, Advanced;
    ParseEnded(t);
    ExtractedEnded(env, c, t);
    UnendedLine(t);
    EndedLine(t);
    NotEmpty(t);
    ReachedShape(env, file, source, c);
    CompleteIs(env, t);
    StepUnfolded(env, file, c);
    if Skippable(env.harness, t + "\n") {
      SkippedIsNothing(env, c, t + "\n");
    }
  }

  // ----- the invariant of every run -----

  /** The saved cursor was reached over terminated lines only, and everything they
      contributed is recorded; whatever is recorded is confirmable. */
  ghost predicate SavedOk(env: Env, source: string, w: World)
  {
    match w.checkpoint
    case None => w.recorded == []
    case Some(c) =>
      && Reached(env, w.file, source, c)
      && (forall o :: o in UpTo(env, w.file, source, c) ==> o in w.recorded)
      && (forall o :: o in w.recorded ==> Confirmable(env, w.file, source, c.lineage, o))
  }

  ghost predicate PreparedOk(env: Env, source: string, file: string, p: Prepared)
  {
    && Reached(env, file, source, p.cursor)
    && p.verified <= |file| && p.seen == file[..p.verified]
    && (p.baseline.Some? ==> Reached(env, file, source, p.baseline.value) && p.cursor.lineage == p.baseline.value.lineage)
    && (forall o :: o in UpTo(env, file, source, p.cursor) ==>
          o in p.staged || (p.baseline.Some? && o in UpTo(env, file, source, p.baseline.value)))
    && (forall o :: o in p.staged ==> Confirmable(env, file, source, p.cursor.lineage, o))
  }

  ghost predicate WorldOk(env: Env, source: string, w: World)
  {
    SavedOk(env, source, w) && forall p :: p in w.prepared ==> PreparedOk(env, source, w.file, p)
  }

  lemma AppendKeepsPrepared(env: Env, source: string, file: string, text: string, p: Prepared)
    requires PreparedOk(env, source, file, p) && EndsComplete(file, text)
    ensures PreparedOk(env, source, file + text, p)
  {
    hide Reached, UpTo, EndsComplete, Confirmable;
    ReachedStable(env, file, text, source, p.cursor);
    if p.baseline.Some? {
      ReachedStable(env, file, text, source, p.baseline.value);
    }
    assert (file + text)[..p.verified] == file[..p.verified];
    forall o | o in p.staged
      ensures Confirmable(env, file + text, source, p.cursor.lineage, o)
    {
      ConfirmableStable(env, file, text, source, p.cursor.lineage, o);
    }
  }

  lemma AppendKeepsWorld(env: Env, source: string, w: World, text: string)
    requires WorldOk(env, source, w) && EndsComplete(w.file, text)
    ensures WorldOk(env, source, w.(file := w.file + text))
  {
    hide Reached, UpTo, EndsComplete, Confirmable, PreparedOk;
    if w.checkpoint.Some? {
      var c := w.checkpoint.value;
      ReachedStable(env, w.file, text, source, c);
      forall o | o in w.recorded
        ensures Confirmable(env, w.file + text, source, c.lineage, o)
      {
        ConfirmableStable(env, w.file, text, source, c.lineage, o);
      }
    }
    forall p | p in w.prepared
      ensures PreparedOk(env, source, w.file + text, p)
    {
      AppendKeepsPrepared(env, source, w.file, text, p);
    }
  }

  lemma BeginningReached(env: Env, file: string, source: string, lineage: string)
    ensures Reached(env, file, source, Beginning(source, lineage))
    ensures UpTo(env, file, source, Beginning(source, lineage)) == []
  {
  }

  /** While the file only grows, a parse resumes at the saved cursor or starts over in the
      same lineage; it never needs a new one. */
  lemma StartReached(env: Env, source: string, w: World, lineage: string, refresh: bool)
    requires SavedOk(env, source, w)
    ensures var c := StartOf(w.file, w.checkpoint, source, lineage, refresh);
            && c.lineage == (if w.checkpoint.Some? then w.checkpoint.value.lineage else lineage)
            && c == (if w.checkpoint.Some? && !refresh then w.checkpoint.value else Beginning(source, c.lineage))
            && Reached(env, w.file, source, c)
  {
    hide Reached, UpTo, Confirmable;
    if w.checkpoint.Some? {
      var saved := w.checkpoint.value;
      ReachedShape(env, w.file, source, saved);
      ReachedAtStart(env, w.file, source, saved);
      BeginningReached(env, w.file, source, saved.lineage);
    } else {
      BeginningReached(env, w.file, source, lineage);
    }
  }

  lemma ReachedAtStart(env: Env, file: string, source: string, c: Cursor)
    requires Reached(env, file, source, c)
    ensures c.offset == 0 ==> c == Beginning(source, c.lineage)
  {
    hide StepLine;
    if c.ordinal > 0 {
      var begin := Beginning(source, c.lineage);
      StepMoves(env, file, begin);
      AfterMoves(env, file, StepLine(env, file, begin).next, c.ordinal - 1);
    }
  }

  lemma PreparingIsOk(env: Env, source: string, w: World, lineage: string, refresh: bool)
    requires SavedOk(env, source, w)
    ensures match Prepare(env, w.file, w.checkpoint, source, lineage, refresh)
            case Err(_) => true
            case Ok(p) => PreparedOk(env, source, w.file, p)
  {
    hide Reached, UpTo, Confirmable, StartOf, ScanFrom;
    var c := StartOf(w.file, w.checkpoint, source, lineage, refresh);
    StartReached(env, source, w, lineage, refresh);
    if ScanFrom(env, w.file, c).Ok? {
      ScanConfirmable(env, w.file, source, c);
      ScanVerified(env, w.file, c);
      BeginningReached(env, w.file, source, c.lineage);
    }
  }

  lemma CommittingKeepsWorld(env: Env, source: string, w: World, p: Prepared)
    requires WorldOk(env, source, w) && p in w.prepared
    ensures WorldOk(env, source, Next(env, source, w, Committing(p)))
  {
    hide Reached, UpTo, Confirmable, Recorded;
    RecordedIsUnion(w.recorded, p.staged);
    assert PreparedOk(env, source, w.file, p);
    var w' := Next(env, source, w, Committing(p));
    if w'.checkpoint != w.checkpoint || w'.recorded != w.recorded {
      assert w'.checkpoint == Some(p.cursor) && w'.recorded == Recorded(w.recorded, p.staged);
    }
  }

  lemma NextKeepsWorld(env: Env, source: string, w: World, event: Event)
    requires WorldOk(env, source, w)
    ensures WorldOk(env, source, Next(env, source, w, event))
  {
    hide PreparedOk, SavedOk, EndsComplete, Prepare;
    match event
    case Appending(text) =>
      if EndsComplete(w.file, text) { AppendKeepsWorld(env, source, w, text); }
    case Preparing(lineage, refresh) =>
      PreparingIsOk(env, source, w, lineage, refresh);
      SavedKept(env, source, w, Next(env, source, w, event));
    case Committing(p) =>
      if p in w.prepared { CommittingKeepsWorld(env, source, w, p); }
  }

  lemma SavedKept(env: Env, source: string, w: World, w': World)
    requires SavedOk(env, source, w) && w'.file == w.file && w'.checkpoint == w.checkpoint && w'.recorded == w.recorded
    ensures SavedOk(env, source, w')
  {
    hide Reached, UpTo, Confirmable;
  }

  lemma {:induction false} RunsKeepWorld(env: Env, source: string, file: string, events: seq<Event>)
    ensures WorldOk(env, source, Run(env, source, file, events))
  {
    if events != [] {
      hide WorldOk, Next;
      RunsKeepWorld(env, source, file, events[..|events| - 1]);
      NextKeepsWorld(env, source, Run(env, source, file, events[..|events| - 1]), events[|events| - 1]);
    }
  }

  // ----- theorems -----

  /** In every run the saved cursor is what the terminated lines before it lead to: its
      hash is of exactly file[0..offset], its ordinal counts the lines there, and nothing
      of an unfinished line is in its context. */
  lemma CheckpointIsSound(env: Env, source: string, file: string, events: seq<Event>)
    ensures var w := Run(env, source, file, events);
            w.checkpoint.Some? ==>
              var c := w.checkpoint.value;
              && c.offset <= |w.file| && c.prefix == w.file[..c.offset] && LineStart(w.file, c.offset)
              && After(env, w.file[..c.offset], Beginning(source, c.lineage), c.ordinal).Some?
              && After(env, w.file[..c.offset], Beginning(source, c.lineage), c.ordinal).value.0 == c
  {
    RunsKeepWorld(env, source, file, events);
    hide Run, Confirmable;
    var w := Run(env, source, file, events);
    if w.checkpoint.Some? {
      var c := w.checkpoint.value;
      ReachedShape(env, w.file, source, c);
      AfterWithin(env, w.file, Beginning(source, c.lineage), c.ordinal, c.offset);
    }
  }

  lemma {:induction false} AfterWithin(env: Env, file: string, c: Cursor, n: nat, offset: nat)
    requires c.offset <= |file| && c.prefix == file[..c.offset] && LineStart(file, c.offset) && After(env, file, c, n).Some?
    requires After(env, file, c, n).value.0.offset <= offset <= |file|
    ensures After(env, file[..offset], c, n) == After(env, file, c, n)
    decreases n
  {
    hide StepLine;
    AfterMoves(env, file, c, n);
    if n > 0 {
      var step := StepLine(env, file, c);
      StepMoves(env, file, c);
      AfterMoves(env, file, step.next, n - 1);
      StepWithin(env, file, c, offset);
      AfterWithin(env, file, step.next, n - 1, offset);
    }
  }

  lemma StepWithin(env: Env, file: string, c: Cursor, offset: nat)
    requires c.offset <= |file| && StepLine(env, file, c).Moved? && StepLine(env, file, c).next.offset <= offset <= |file|
    ensures c.offset <= offset && StepLine(env, file[..offset], c) == StepLine(env, file, c)
  {
    hide StepLine;
    StepMoves(env, file, c);
    StepLength(env, file, c);
    var rest := file[c.offset..];
    var shorter := file[..offset][c.offset..];
    assert shorter == rest[..offset - c.offset];
    LineWithin(rest, offset - c.offset);
    assert rest == shorter + rest[offset - c.offset..];
    assert file == file[..offset] + file[offset..];
    StepFromShorter(env, file[..offset], file[offset..], c);
  }

  lemma StepLength(env: Env, file: string, c: Cursor)
    requires c.offset <= |file| && StepLine(env, file, c).Moved?
    ensures StepLine(env, file, c).next.offset == c.offset + LineLength(file[c.offset..]) && Terminated(FirstLine(file[c.offset..]))
  {
    hide Extracted, Complete, ParseLine, Skippable, FirstLine, LineLength, Terminated;
    LineFits(file, c.offset);
    LineIsPrefix(file[c.offset..]);
  }

  lemma LineWithin(s: string, n: nat)
    requires n <= |s| && LineLength(s) <= n && Terminated(FirstLine(s))
    ensures FirstLine(s[..n]) == FirstLine(s)
  {
    var line := FirstLine(s);
    LineShape(s);
    LineIsPrefix(s);
    hide LineLength;
    assert s[..n][..|line| - 1] == line[..|line| - 1];
    LineIs(s[..n], |line| - 1);
  }

  lemma StepFromShorter(env: Env, file: string, more: string, c: Cursor)
    requires c.offset <= |file| && Terminated(FirstLine(file[c.offset..]))
    requires StepLine(env, file + more, c).Moved?
    ensures StepLine(env, file, c) == StepLine(env, file + more, c)
  {
    hide ParseLine, Skippable, Extracted, Complete, FirstLine, LineLength;
    assert (file + more)[c.offset..] == file[c.offset..] + more;
    LineFits(file, c.offset);
    LineStable(file[c.offset..], more);
    assert forall n :: 0 <= n <= |file| ==> (file + more)[..n] == file[..n];
  }

  ghost predicate SameElements(a: seq<Observation>, b: seq<Observation>)
  {
    forall o :: o in a <==> o in b
  }

  /** Whatever resumed parses, refreshes, speculation and growth came before: committing a
      parse of the present file leaves recorded exactly what one parse of it from offset 0
      in the same lineage records. It is possible exactly when that parse succeeds. */
  lemma IncrementalEqualsFull(env: Env, source: string, file: string, events: seq<Event>, lineage: string, refresh: bool)
    requires CleansStrings(env)
    ensures var w := Run(env, source, file, events);
            var c := StartOf(w.file, w.checkpoint, source, lineage, refresh);
            var full := ScanFrom(env, w.file, Beginning(source, c.lineage));
            match Prepare(env, w.file, w.checkpoint, source, lineage, refresh)
            case Err(_) => full.Err?
            case Ok(p) =>
              var committed := Next(env, source, Next(env, source, w, Preparing(lineage, refresh)), Committing(p));
              full.Ok? && committed.checkpoint == Some(p.cursor) &&
              SameElements(committed.recorded, full.value.settled + OfOption(full.value.tail))
  {
    RunsKeepWorld(env, source, file, events);
    hide Run;
    CommitEqualsFull(env, source, Run(env, source, file, events), lineage, refresh);
  }

  lemma CommitEqualsFull(env: Env, source: string, w: World, lineage: string, refresh: bool)
    requires CleansStrings(env) && WorldOk(env, source, w)
    ensures var c := StartOf(w.file, w.checkpoint, source, lineage, refresh);
            var full := ScanFrom(env, w.file, Beginning(source, c.lineage));
            match Prepare(env, w.file, w.checkpoint, source, lineage, refresh)
            case Err(_) => full.Err?
            case Ok(p) =>
              var committed := Next(env, source, Next(env, source, w, Preparing(lineage, refresh)), Committing(p));
              full.Ok? && committed.checkpoint == Some(p.cursor) &&
              SameElements(committed.recorded, full.value.settled + OfOption(full.value.tail))
  {
    hide Reached, UpTo, Confirmable, StartOf, ScanFrom, CleansStrings, PreparedOk;
    var c := StartOf(w.file, w.checkpoint, source, lineage, refresh);
    StartReached(env, source, w, lineage, refresh);
    ScanReached(env, w.file, source, c);
    BeginningReached(env, w.file, source, c.lineage);
    if ScanFrom(env, w.file, c).Ok? {
      var s, full := ScanFrom(env, w.file, c).value, ScanFrom(env, w.file, Beginning(source, c.lineage)).value;
      ScanVerified(env, w.file, c);
      var staged := s.settled + OfOption(s.tail);
      RecordedIsUnion(w.recorded, staged);
      forall o | o in w.recorded
        ensures o in full.settled || full.tail == Some(o)
      {
        ConfirmedInFull(env, w.file, source, c.lineage, o);
      }
      assert full.settled == UpTo(env, w.file, source, c) + s.settled && full.tail == s.tail;
    }
  }
}
