/** Exactly which oversized records the capture skips: those whose strings, decoded in
    full, stand in its lists, unless a name that decides it is written twice. */
module Irrelevance {
  import opened Basics
  import opened JsonGrammar
  import opened JsonTheorems
  import opened Candidates
  import opened Discriminators
  import opened LineReader

  lemma ListedEvents(u: Units)
    ensures OneOf(u, CODEX_EVENTS) <==>
            u == Ascii("agent_message") || u == Ascii("agent_reasoning") || u == Ascii("user_message") ||
            u == Ascii("exec_command_begin") || u == Ascii("exec_command_end") || u == Ascii("task_complete") ||
            u == Ascii("turn_aborted")
  {
    hide Ascii;
    var e := CODEX_EVENTS;
    assert u == Ascii(e[0]) || u == Ascii(e[1]) || u == Ascii(e[2]) || u == Ascii(e[3]) || u == Ascii(e[4]) ||
           u == Ascii(e[5]) || u == Ascii(e[6]) || !OneOf(u, e);
  }

  lemma ListedPi(u: Units)
    ensures OneOf(u, PI_KINDS) <==>
            u == Ascii("model_change") || u == Ascii("thinking_level_change") || u == Ascii("custom") ||
            u == Ascii("compaction") || u == Ascii("branch_summary") || u == Ascii("label")
    ensures OneOf(u, PI_ROLES) <==> u == Ascii("user") || u == Ascii("toolResult")
  {
    hide Ascii;
    var e, r := PI_KINDS, PI_ROLES;
    assert u == Ascii(e[0]) || u == Ascii(e[1]) || u == Ascii(e[2]) || u == Ascii(e[3]) || u == Ascii(e[4]) ||
           u == Ascii(e[5]) || !OneOf(u, e);
    assert u == Ascii(r[0]) || u == Ascii(r[1]) || !OneOf(u, r);
  }

  lemma ListedClaude(u: Units)
    ensures OneOf(u, CLAUDE_KINDS) <==>
            u == Ascii("user") || u == Ascii("system") || u == Ascii("progress") || u == Ascii("queue-operation") ||
            u == Ascii("file-history-snapshot") || u == Ascii("summary")
  {
    hide Ascii;
    var e := CLAUDE_KINDS;
    assert u == Ascii(e[0]) || u == Ascii(e[1]) || u == Ascii(e[2]) || u == Ascii(e[3]) || u == Ascii(e[4]) ||
           u == Ascii(e[5]) || !OneOf(u, e);
  }

  /** The record's kind, or what it carries, is on the harness's list. */
  ghost predicate OnList(h: Harness, full: Strings)
  {
    match h
    case OpenCode => false
    case Codex =>
      full.kind == Ascii("response_item") ||
      (full.kind == Ascii("event_msg") &&
       (full.payloadType == Ascii("agent_message") || full.payloadType == Ascii("agent_reasoning") ||
        full.payloadType == Ascii("user_message") || full.payloadType == Ascii("exec_command_begin") ||
        full.payloadType == Ascii("exec_command_end") || full.payloadType == Ascii("task_complete") ||
        full.payloadType == Ascii("turn_aborted")))
    case Pi =>
      full.kind == Ascii("model_change") || full.kind == Ascii("thinking_level_change") || full.kind == Ascii("custom") ||
      full.kind == Ascii("compaction") || full.kind == Ascii("branch_summary") || full.kind == Ascii("label") ||
      (full.kind == Ascii("message") && (full.role == Ascii("user") || full.role == Ascii("toolResult")))
    case ClaudeCode =>
      full.kind == Ascii("user") || full.kind == Ascii("system") || full.kind == Ascii("progress") ||
      full.kind == Ascii("queue-operation") || full.kind == Ascii("file-history-snapshot") || full.kind == Ascii("summary")
  }

  lemma CodexListed(v: Json)
    requires v.Object? && WellFormed(v) && !NoteMembers(NOTHING, Root, v.members).ambiguous
    ensures Irrelevant(Codex, NoteMembers(NOTHING, Root, v.members)) <==> OnList(Codex, FullStrings(v))
  {
    var n := NoteMembers(NOTHING, Root, v.members);
    hide NoteMembers, FullStrings, WellFormed, Ascii, Noted, OneOf;
    ListedEvents(Noted(n, PayloadType));
    ShortNamesFound(v, "response_item");
    ShortNamesFound(v, "event_msg");
    ShortNamesFound(v, "agent_message");
    ShortNamesFound(v, "agent_reasoning");
    ShortNamesFound(v, "user_message");
    ShortNamesFound(v, "exec_command_begin");
    ShortNamesFound(v, "exec_command_end");
    ShortNamesFound(v, "task_complete");
    ShortNamesFound(v, "turn_aborted");
  }

  lemma PiListed(v: Json)
    requires v.Object? && WellFormed(v) && !NoteMembers(NOTHING, Root, v.members).ambiguous
    ensures Irrelevant(Pi, NoteMembers(NOTHING, Root, v.members)) <==> OnList(Pi, FullStrings(v))
  {
    var n := NoteMembers(NOTHING, Root, v.members);
    hide NoteMembers, FullStrings, WellFormed, Ascii, Noted, OneOf;
    ListedPi(Noted(n, Type));
    ListedPi(Noted(n, MessageRole));
    ShortNamesFound(v, "model_change");
    ShortNamesFound(v, "thinking_level_change");
    ShortNamesFound(v, "custom");
    ShortNamesFound(v, "compaction");
    ShortNamesFound(v, "branch_summary");
    ShortNamesFound(v, "label");
    ShortNamesFound(v, "message");
    ShortNamesFound(v, "user");
    ShortNamesFound(v, "toolResult");
  }

  lemma ClaudeListed(v: Json)
    requires v.Object? && WellFormed(v) && !NoteMembers(NOTHING, Root, v.members).ambiguous
    ensures Irrelevant(ClaudeCode, NoteMembers(NOTHING, Root, v.members)) <==> OnList(ClaudeCode, FullStrings(v))
  {
    var n := NoteMembers(NOTHING, Root, v.members);
    hide NoteMembers, FullStrings, WellFormed, Ascii, Noted, OneOf;
    ListedClaude(Noted(n, Type));
    ShortNamesFound(v, "user");
    ShortNamesFound(v, "system");
    ShortNamesFound(v, "progress");
    ShortNamesFound(v, "queue-operation");
    ShortNamesFound(v, "file-history-snapshot");
    ShortNamesFound(v, "summary");
  }

  // ----- what is written twice -----

  /** How many members have this name. */
  ghost function Named(ms: seq<Member>, name: Units): nat
    requires MembersOk(ms)
    decreases ms
  {
    if ms == [] then 0 else (if Decoded(ms[0].key) == name then 1 else 0) + Named(ms[1..], name)
  }

  ghost function NamedInside(v: Json, name: Units): nat
    requires WellFormed(v)
  {
    if v.Object? then Named(v.members, name) else 0
  }

  /** Some member of the outer name is an object that has the inner name twice. */
  ghost predicate TwiceInside(ms: seq<Member>, outer: Units, inner: Units)
    requires MembersOk(ms)
    decreases ms
  {
    ms != [] &&
    ((Decoded(ms[0].key) == outer && NamedInside(ms[0].value, inner) > 1) || TwiceInside(ms[1..], outer, inner))
  }

  function Times(n: Notes, place: Place): nat
  {
    if place in n.seen then 1 else 0
  }

  lemma {:induction false} InnerTwice(n: Notes, parent: Place, name: Units, place: Place, ms: seq<Member>)
    requires InnerPlace(parent, name, place) && MembersOk(ms)
    ensures var r := NoteMembers(n, parent, ms);
            && (r.ambiguous <==> n.ambiguous || Times(n, place) + Named(ms, name) > 1)
            && Elsewhere(n, r, {place})
            && (place in r.seen <==> place in n.seen || Named(ms, name) > 0)
    decreases ms
  {
    hide NoteMember, Decoded, Remembered, Ascii, WellFormed, InnerPlace;
    if ms != [] {
      InnerMember(n, parent, name, place, ms[0]);
      InnerTwice(NoteMember(n, parent, ms[0]), parent, name, place, ms[1..]);
    }
  }

  /** One member at the root: what it adds to the names seen, and whether it repeats one. */
  lemma RootTwice(n: Notes, m: Member)
    requires PiecesOk(m.key) && WellFormed(m.value) && Nested(n)
    ensures var r, name := NoteMember(n, Root, m), Decoded(m.key);
            && (name == Ascii("type") ==> (r.ambiguous <==> n.ambiguous || Type in n.seen) && r.seen == n.seen + {Type})
            && (name == Ascii("payload") ==>
                  && (Payload in n.seen ==> r.ambiguous)
                  && (Payload !in n.seen ==>
                        (r.ambiguous <==> n.ambiguous || NamedInside(m.value, Ascii("type")) > 1))
                  && n.seen + {Payload} <= r.seen <= n.seen + {Payload, PayloadType})
            && (name == Ascii("message") ==>
                  && (Message in n.seen ==> r.ambiguous)
                  && (Message !in n.seen ==>
                        (r.ambiguous <==> n.ambiguous || NamedInside(m.value, Ascii("role")) > 1))
                  && n.seen + {Message} <= r.seen <= n.seen + {Message, MessageRole})
            && (name != Ascii("type") && name != Ascii("payload") && name != Ascii("message") ==> r == n)
  {
    hide Remembered, Decoded, Ascii, WellFormed, NoteMembers, Named;
    RememberedPlace(Root, m.key);
    NamesDiffer();
    var place := PlaceOf(Root, Remembered(m.key));
    var named := NoteName(n, place);
    if Inert(place) {
      InertValue(named, place, m.value);
    } else if m.value.Object? {
      ObjectMembers(m.value);
      if place == Payload {
        InnerTwice(named, Payload, Ascii("type"), PayloadType, m.value.members);
      } else {
        InnerTwice(named, Message, Ascii("role"), MessageRole, m.value.members);
      }
    }
  }

  /** A name that decides what the record is stands twice where it counts. */
  ghost predicate Repeats(n: Notes, ms: seq<Member>)
    requires MembersOk(ms)
  {
    || Times(n, Type) + Named(ms, Ascii("type")) > 1
    || Times(n, Payload) + Named(ms, Ascii("payload")) > 1
    || Times(n, Message) + Named(ms, Ascii("message")) > 1
    || TwiceInside(ms, Ascii("payload"), Ascii("type"))
    || TwiceInside(ms, Ascii("message"), Ascii("role"))
  }

  lemma {:induction false} AmbiguousMembers(n: Notes, ms: seq<Member>)
    requires MembersOk(ms) && Nested(n)
    ensures NoteMembers(n, Root, ms).ambiguous <==> n.ambiguous || Repeats(n, ms)
    decreases ms
  {
    hide NoteMember, Decoded, Remembered, Ascii, WellFormed, RootMember;
    NamesDiffer();
    if ms != [] {
      var mid := NoteMember(n, Root, ms[0]);
      RootTwice(n, ms[0]);
      MemberAtRoot(n, ms[0]);
      MemberKeepsNesting(n, mid, Decoded(ms[0].key), ms[0].value);
      AmbiguousMembers(mid, ms[1..]);
      RootMembers(mid, ms[1..]);
    }
  }

  /** No name that decides what the record is stands twice, and its strings, decoded in
      full, are on the harness's list. */
  ghost predicate Listed(h: Harness, v: Json)
    requires v.Object? && WellFormed(v)
  {
    ObjectMembers(v);
    && OnList(h, FullStrings(v))
    && Named(v.members, Ascii("type")) <= 1 && Named(v.members, Ascii("payload")) <= 1
    && Named(v.members, Ascii("message")) <= 1
    && !TwiceInside(v.members, Ascii("payload"), Ascii("type"))
    && !TwiceInside(v.members, Ascii("message"), Ascii("role"))
  }

  /** A record is irrelevant if and only if it is listed. */
  lemma SkippedIffListed(h: Harness, v: Json)
    requires v.Object? && WellFormed(v)
    ensures Irrelevant(h, NoteMembers(NOTHING, Root, v.members)) <==> Listed(h, v)
  {
    ObjectMembers(v);
    AmbiguousMembers(NOTHING, v.members);
    NothingSeen(h, v);
    if !NoteMembers(NOTHING, Root, v.members).ambiguous {
      hide NoteMembers, FullStrings, WellFormed, Ascii, Irrelevant, OnList, Repeats, Listed;
      match h
      case OpenCode => NeverSkipped(v);
      case Codex => CodexListed(v);
      case Pi => PiListed(v);
      case ClaudeCode => ClaudeListed(v);
    }
  }

  lemma NothingSeen(h: Harness, v: Json)
    requires v.Object? && WellFormed(v) && MembersOk(v.members)
    ensures Listed(h, v) <==> OnList(h, FullStrings(v)) && !Repeats(NOTHING, v.members)
  {
    hide OnList, FullStrings, WellFormed, Ascii, TwiceInside, Named;
  }

  lemma NeverSkipped(v: Json)
    requires v.Object? && WellFormed(v)
    ensures !Irrelevant(OpenCode, NoteMembers(NOTHING, Root, v.members)) && !OnList(OpenCode, FullStrings(v))
  {
  }

  // ----- oversized lines -----

  /** The line is one object, and a listed one. */
  ghost predicate ListedText(h: Harness, line: string, v: Json)
  {
    IsObjectText(line, v) && Listed(h, v)
  }

  /** What reading a line yields is decided by its text: up to 16 MiB it is handed out; a
      longer one is skipped if it is one listed object, may still be growing if it is no
      object and was not ended, and otherwise is refused. */
  lemma LongLinesAreDecided(h: Harness, rest: string)
    ensures var line := FirstLine(rest);
            var ended := line != "" && line[|line| - 1] == '\n';
            match ReadLine(h, rest)
            case Line(text, eof) => |line| <= 16 * 1024 * 1024 && text == line && eof == !ended
            case Skipped(length, eof) =>
              |line| > 16 * 1024 * 1024 && length == |line| && eof == !ended && exists v :: ListedText(h, line, v)
            case Partial(length) =>
              |line| > 16 * 1024 * 1024 && length == |line| && !ended && forall v :: !IsObjectText(line, v)
            case RecordLimit =>
              && |line| > 16 * 1024 * 1024 && (forall v :: !ListedText(h, line, v))
              && (ended || exists v :: IsObjectText(line, v))
  {
    var line := FirstLine(rest);
    forall v
      ensures ParseLine(line) == Some(v) <==> IsObjectText(line, v)
    {
      ReadingIsGrammar(line, v);
    }
    if ParseLine(line).Some? {
      var v := ParseLine(line).value;
      assert IsObjectText(line, v);
      SkippedIffListed(h, v);
      assert Skippable(h, line) <==> ListedText(h, line, v) by {
        hide ParseLine, NoteMembers, Listed;
      }
    }
    hide ParseLine, IsObjectText, Listed, FirstLine, Skippable;
  }
}
