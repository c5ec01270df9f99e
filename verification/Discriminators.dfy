/** The few strings that decide what a source record is, as the bounded recogniser
    notes them and as decoding the whole record would read them. */
module Discriminators {
  import opened Basics
  import opened Candidates
  import opened JsonNumber
  import opened JsonGrammar

  const MAX_TOKEN_BYTES: nat := 512

  /** A decoded string. Escapes stand for their code; a byte above 127 stands for itself,
      apart from all codes, since no such byte is part of an ASCII text. */
  type Units = seq<int>

  function HexValue(c: char): int
    requires IsHex(c)
  {
    if c <= '9' then c as int - '0' as int else if c <= 'F' then c as int - 'A' as int + 10 else c as int - 'a' as int + 10
  }

  function UnitOf(p: Piece): int
    requires PieceOk(p)
  {
    match p
    case Plain(c) => if c < 128 as char then c as int else 0x110000 + c as int
    case Escape(c) =>
      if c == 'b' then 8 else if c == 'f' then 12 else if c == 'n' then 10 else if c == 'r' then 13 else if c == 't' then 9 else c as int
    case Unicode(a, b, c, d) => ((HexValue(a) * 16 + HexValue(b)) * 16 + HexValue(c)) * 16 + HexValue(d)
  }

  /** The value of a hexadecimal digit, in either case. */
  lemma HexByPosition(c: char)
    requires IsHex(c)
    ensures 0 <= HexValue(c) < 16
    ensures c == "0123456789abcdef"[HexValue(c)] || c == "0123456789ABCDEF"[HexValue(c)]
  {
  }

  /** What each escape stands for: RFC 8259, section 7. */
  lemma EscapesByCode(p: Piece)
    requires PieceOk(p)
    ensures match p
            case Plain(c) => c as int < 128 ==> UnitOf(p) == c as int
            case Escape(c) =>
              (c as int, UnitOf(p)) in {(0x22, 0x22), (0x5C, 0x5C), (0x2F, 0x2F), (0x62, 0x08), (0x66, 0x0C),
                                        (0x6E, 0x0A), (0x72, 0x0D), (0x74, 0x09)}
            case Unicode(a, b, c, d) =>
              UnitOf(p) == HexValue(a) * 0x1000 + HexValue(b) * 0x100 + HexValue(c) * 0x10 + HexValue(d)
  {
  }

  function Decoded(ps: seq<Piece>): (u: Units)
    requires PiecesOk(ps)
    ensures |u| == |ps|
  {
    seq(|ps|, i requires 0 <= i < |ps| => UnitOf(ps[i]))
  }

  function Ascii(s: string): (u: Units)
    ensures |u| == |s|
  {
    seq(|s|, i requires 0 <= i < |s| => s[i] as int)
  }

  // ----- what the recogniser notes -----

  /** The places a discriminator may stand; Other is everywhere else. */
  datatype Place = Root | Type | Payload | Message | PayloadType | MessageRole | Other

  function PlaceOf(parent: Place, key: Units): Place
  {
    if parent == Root && key == Ascii("type") then Type
    else if parent == Root && key == Ascii("payload") then Payload
    else if parent == Root && key == Ascii("message") then Message
    else if parent == Payload && key == Ascii("type") then PayloadType
    else if parent == Message && key == Ascii("role") then MessageRole
    else Other
  }

  /** A token longer than the bound, quotes included, is checked but not retained. */
  function Remembered(ps: seq<Piece>): Units
    requires PiecesOk(ps)
  {
    if 1 + |ShowPieces(ps)| > MAX_TOKEN_BYTES then [] else Decoded(ps)
  }

  datatype Notes = Notes(values: map<Place, Units>, seen: set<Place>, ambiguous: bool)

  function NoteName(n: Notes, place: Place): Notes
  {
    if place == Other then n else Notes(n.values, n.seen + {place}, n.ambiguous || place in n.seen)
  }

  function NoteText(n: Notes, place: Place, ps: seq<Piece>): Notes
    requires PiecesOk(ps)
  {
    if place == Other then n else n.(values := n.values[place := Remembered(ps)])
  }

  ghost function NoteValue(n: Notes, place: Place, v: Json): Notes
    requires WellFormed(v)
    decreases v, 1
  {
    match v
    case Text(ps) => NoteText(n, place, ps)
    case Object(_, members) => NoteMembers(n, place, members)
    case _ => n
  }

  ghost function NoteMember(n: Notes, parent: Place, m: Member): Notes
    requires PiecesOk(m.key) && WellFormed(m.value)
    decreases m, 1
  {
    var place := PlaceOf(parent, Remembered(m.key));
    NoteValue(NoteName(n, place), place, m.value)
  }

  ghost function NoteMembers(n: Notes, parent: Place, ms: seq<Member>): Notes
    requires MembersOk(ms)
    decreases ms, 0
  {
    if ms == [] then n else NoteMembers(NoteMember(n, parent, ms[0]), parent, ms[1..])
  }

  const NOTHING := Notes(map[], {}, false)

  function Noted(n: Notes, place: Place): Units
  {
    if place in n.values then n.values[place] else []
  }

  /** Objects below a discriminator, or anywhere else, hold no discriminators. */
  predicate Inert(place: Place)
  {
    place != Root && place != Payload && place != Message
  }

  lemma {:induction false} InertMembers(n: Notes, place: Place, ms: seq<Member>)
    requires Inert(place) && MembersOk(ms)
    ensures NoteMembers(n, place, ms) == n
    decreases ms, 0
  {
    if ms != [] {
      InertValue(n, Other, ms[0].value);
      InertMembers(n, place, ms[1..]);
    }
  }

  lemma {:induction false} InertValue(n: Notes, place: Place, v: Json)
    requires Inert(place) && WellFormed(v)
    ensures !v.Text? || place == Other ==> NoteValue(n, place, v) == n
    decreases v, 1
  {
    if v.Object? {
      InertMembers(n, place, v.members);
    }
  }

  // ----- what decoding everything would say -----

  /** Decoding keeps the last of several members with one name. */
  ghost function LastMember(ms: seq<Member>, name: Units): (r: Option<Json>)
    requires MembersOk(ms)
    ensures r.Some? ==> WellFormed(r.value)
    decreases ms
  {
    if ms == [] then None
    else if LastMember(ms[1..], name).Some? then LastMember(ms[1..], name)
    else if Decoded(ms[0].key) == name then Some(ms[0].value)
    else None
  }

  ghost function TextOf(v: Option<Json>): Units
    requires v.Some? ==> WellFormed(v.value)
  {
    if v.Some? && v.value.Text? then Decoded(v.value.pieces) else []
  }

  ghost function Inside(v: Option<Json>, name: Units): (r: Option<Json>)
    requires v.Some? ==> WellFormed(v.value)
    ensures r.Some? ==> WellFormed(r.value)
  {
    if v.Some? && v.value.Object? then LastMember(v.value.members, name) else None
  }

  /** The three discriminators, decoded from the whole object. */
  datatype Strings = Strings(kind: Units, payloadType: Units, role: Units)

  ghost function FullStrings(v: Json): Strings
    requires v.Object? && WellFormed(v)
  {
    Strings(TextOf(LastMember(v.members, Ascii("type"))),
            TextOf(Inside(LastMember(v.members, Ascii("payload")), Ascii("type"))),
            TextOf(Inside(LastMember(v.members, Ascii("message")), Ascii("role"))))
  }

  // ----- classification -----

  predicate UsageRecord(h: Harness, s: Strings)
  {
    match h
    case OpenCode => false
    case Pi => s.kind == Ascii("message") && s.role == Ascii("assistant")
    case ClaudeCode => s.kind == Ascii("assistant") && s.role == Ascii("assistant")
    case Codex => s.kind == Ascii("event_msg") && s.payloadType == Ascii("token_count")
  }

  predicate ContextRecord(h: Harness, s: Strings)
  {
    || (h == Pi && s.kind == Ascii("session"))
    || (h == Codex && (s.kind == Ascii("session_meta") || s.kind == Ascii("turn_context") ||
                       (s.kind == Ascii("event_msg") && s.payloadType == Ascii("task_started"))))
  }

  predicate OneOf(u: Units, names: seq<string>)
  {
    exists i :: 0 <= i < |names| && u == Ascii(names[i])
  }

  const CODEX_EVENTS: seq<string> := ["agent_message", "agent_reasoning", "user_message", "exec_command_begin",
                                      "exec_command_end", "task_complete", "turn_aborted"]
  const PI_KINDS: seq<string> := ["model_change", "thinking_level_change", "custom", "compaction", "branch_summary", "label"]
  const PI_ROLES: seq<string> := ["user", "toolResult"]
  const CLAUDE_KINDS: seq<string> := ["user", "system", "progress", "queue-operation", "file-history-snapshot", "summary"]

  /** Proof enough that a record is of no use to this harness. */
  predicate Irrelevant(h: Harness, n: Notes)
  {
    !n.ambiguous &&
    match h
    case OpenCode => false
    case Codex =>
      Noted(n, Type) == Ascii("response_item") ||
      (Noted(n, Type) == Ascii("event_msg") && OneOf(Noted(n, PayloadType), CODEX_EVENTS))
    case Pi =>
      OneOf(Noted(n, Type), PI_KINDS) || (Noted(n, Type) == Ascii("message") && OneOf(Noted(n, MessageRole), PI_ROLES))
    case ClaudeCode => OneOf(Noted(n, Type), CLAUDE_KINDS)
  }

  // ----- short names survive the bound -----

  const LONGEST_NAME: nat := 24

  lemma {:induction false} PiecesAreShort(ps: seq<Piece>)
    ensures |ShowPieces(ps)| <= 6 * |ps| + 1
  {
    if ps != [] {
      PiecesAreShort(ps[1..]);
    }
  }

  /** Forgetting a long token never hides a discriminator. */
  lemma RememberedName(ps: seq<Piece>, name: Units)
    requires PiecesOk(ps) && 0 < |name| <= LONGEST_NAME
    ensures Remembered(ps) == name <==> Decoded(ps) == name
  {
    PiecesAreShort(ps);
  }

  lemma RememberedPlace(parent: Place, ps: seq<Piece>)
    requires PiecesOk(ps)
    ensures PlaceOf(parent, Remembered(ps)) == PlaceOf(parent, Decoded(ps))
  {
    hide Remembered, Decoded, Ascii;
    RememberedName(ps, Ascii("type"));
    RememberedName(ps, Ascii("payload"));
    RememberedName(ps, Ascii("message"));
    RememberedName(ps, Ascii("role"));
  }

  // ----- notes against full decoding -----

  /** The value noted at a place, if the last member of that name is a text. */
  ghost function NotedFrom(last: Option<Json>, before: Units): Units
    requires last.Some? ==> WellFormed(last.value)
  {
    if last.Some? && last.value.Text? then Remembered(last.value.pieces) else before
  }

  predicate Elsewhere(n: Notes, r: Notes, places: set<Place>)
  {
    forall q :: q !in places ==> Noted(r, q) == Noted(n, q) && (q in r.seen <==> q in n.seen)
  }

  predicate InnerPlace(parent: Place, name: Units, place: Place)
  {
    (parent == Payload && name == Ascii("type") && place == PayloadType) ||
    (parent == Message && name == Ascii("role") && place == MessageRole)
  }

  lemma NamesDiffer()
    ensures Ascii("type") != Ascii("payload") && Ascii("type") != Ascii("message") && Ascii("type") != Ascii("role")
    ensures Ascii("payload") != Ascii("message")
  {
    assert Ascii("payload")[0] == 'p' as int && Ascii("message")[0] == 'm' as int;
    assert Ascii("type")[0] == 't' as int && Ascii("role")[0] == 'r' as int;
  }

  /** One member of a payload or message object. */
  lemma InnerMember(n: Notes, parent: Place, name: Units, place: Place, m: Member)
    requires InnerPlace(parent, name, place) && PiecesOk(m.key) && WellFormed(m.value)
    ensures var r := NoteMember(n, parent, m);
            && Elsewhere(n, r, {place})
            && (if Decoded(m.key) == name
                then r.seen == n.seen + {place} && r.ambiguous == (n.ambiguous || place in n.seen)
                     && Noted(r, place) == NotedFrom(Some(m.value), Noted(n, place))
                else r == n)
  {
    hide Remembered, Decoded, Ascii, WellFormed;
    RememberedPlace(parent, m.key);
    var at := PlaceOf(parent, Remembered(m.key));
    InertValue(NoteName(n, at), at, m.value);
  }

  lemma {:induction false} InnerMembers(n: Notes, parent: Place, name: Units, place: Place, ms: seq<Member>)
    requires InnerPlace(parent, name, place) && MembersOk(ms)
    ensures var r, last := NoteMembers(n, parent, ms), LastMember(ms, name);
            && Elsewhere(n, r, {place})
            && (n.ambiguous ==> r.ambiguous)
            && (!r.ambiguous && place in n.seen ==> last.None? && r == n)
            && (!r.ambiguous && place !in n.seen ==>
                  Noted(r, place) == NotedFrom(last, Noted(n, place)) && (place in r.seen <==> last.Some?))
    decreases ms
  {
    hide NoteMember, Decoded, Remembered, Ascii, WellFormed, InnerPlace;
    if ms != [] {
      InnerMember(n, parent, name, place, ms[0]);
      InnerMembers(NoteMember(n, parent, ms[0]), parent, name, place, ms[1..]);
    }
  }

  /** What notes taken at the root say, given the last members found there. */
  ghost predicate RootNotes(n: Notes, r: Notes, kind: Option<Json>, payload: Option<Json>, message: Option<Json>)
    requires kind.Some? ==> WellFormed(kind.value)
    requires payload.Some? ==> WellFormed(payload.value)
    requires message.Some? ==> WellFormed(message.value)
  {
    && (if Type in n.seen then kind.None? && Noted(r, Type) == Noted(n, Type)
        else Noted(r, Type) == NotedFrom(kind, Noted(n, Type)))
    && (if Payload in n.seen then payload.None? && Noted(r, PayloadType) == Noted(n, PayloadType)
        else Noted(r, PayloadType) == NotedFrom(Inside(payload, Ascii("type")), Noted(n, PayloadType)))
    && (if Message in n.seen then message.None? && Noted(r, MessageRole) == Noted(n, MessageRole)
        else Noted(r, MessageRole) == NotedFrom(Inside(message, Ascii("role")), Noted(n, MessageRole)))
  }

  ghost predicate RootMember(n: Notes, r: Notes, name: Units, v: Json)
    requires WellFormed(v)
  {
    && (n.ambiguous ==> r.ambiguous)
    && (name == Ascii("type") ==>
          (Type in n.seen ==> r.ambiguous) && Type in r.seen && Noted(r, Type) == NotedFrom(Some(v), Noted(n, Type))
          && Elsewhere(n, r, {Type}))
    && (name == Ascii("payload") ==>
          (Payload in n.seen ==> r.ambiguous) && Payload in r.seen && Elsewhere(n, r, {Payload, PayloadType})
          && (!r.ambiguous && PayloadType !in n.seen ==>
                Noted(r, PayloadType) == NotedFrom(Inside(Some(v), Ascii("type")), Noted(n, PayloadType))))
    && (name == Ascii("message") ==>
          (Message in n.seen ==> r.ambiguous) && Message in r.seen && Elsewhere(n, r, {Message, MessageRole})
          && (!r.ambiguous && MessageRole !in n.seen ==>
                Noted(r, MessageRole) == NotedFrom(Inside(Some(v), Ascii("role")), Noted(n, MessageRole))))
    && (name != Ascii("type") && name != Ascii("payload") && name != Ascii("message") ==> r == n)
  }

  lemma MemberAtRoot(n: Notes, m: Member)
    requires PiecesOk(m.key) && WellFormed(m.value)
    ensures RootMember(n, NoteMember(n, Root, m), Decoded(m.key), m.value)
  {
    hide Remembered, Decoded, Ascii, WellFormed, NoteMembers, LastMember;
    RememberedPlace(Root, m.key);
    NamesDiffer();
    var place := PlaceOf(Root, Remembered(m.key));
    var named := NoteName(n, place);
    if Inert(place) {
      InertValue(named, place, m.value);
    } else if m.value.Object? {
      ObjectMembers(m.value);
      if place == Payload {
        InnerMembers(named, Payload, Ascii("type"), PayloadType, m.value.members);
      } else {
        InnerMembers(named, Message, Ascii("role"), MessageRole, m.value.members);
      }
    }
  }

  lemma ObjectMembers(v: Json)
    requires v.Object? && WellFormed(v)
    ensures MembersOk(v.members)
  {
  }

  /** A place inside an object is seen only after the object. */
  predicate Nested(n: Notes)
  {
    (PayloadType in n.seen ==> Payload in n.seen) && (MessageRole in n.seen ==> Message in n.seen)
  }

  lemma {:induction false} RootMembers(n: Notes, ms: seq<Member>)
    requires MembersOk(ms) && Nested(n)
    ensures var r := NoteMembers(n, Root, ms);
            && (n.ambiguous ==> r.ambiguous)
            && (!r.ambiguous ==> RootNotes(n, r, LastMember(ms, Ascii("type")), LastMember(ms, Ascii("payload")),
                                           LastMember(ms, Ascii("message"))))
    decreases ms
  {
    if ms != [] {
      hide NoteMember, Decoded, Remembered, Ascii, WellFormed, RootMember, RootNotes, Nested;
      var mid := NoteMember(n, Root, ms[0]);
      MemberAtRoot(n, ms[0]);
      MemberKeepsNesting(n, mid, Decoded(ms[0].key), ms[0].value);
      RootMembers(mid, ms[1..]);
      var r := NoteMembers(mid, Root, ms[1..]);
      if !r.ambiguous {
        RootCombined(n, mid, r, ms[0], ms[1..]);
      }
    } else {
      NoRootMembers(n);
    }
  }

  lemma NoRootMembers(n: Notes)
    ensures RootNotes(n, n, None, None, None)
  {
  }

  lemma MemberKeepsNesting(n: Notes, mid: Notes, name: Units, v: Json)
    requires WellFormed(v) && Nested(n) && RootMember(n, mid, name, v)
    ensures Nested(mid) && (n.ambiguous ==> mid.ambiguous)
  {
    hide Ascii, WellFormed, NotedFrom, Inside;
  }

  lemma RootCombined(n: Notes, mid: Notes, r: Notes, m: Member, rest: seq<Member>)
    requires PiecesOk(m.key) && WellFormed(m.value) && MembersOk(rest) && Nested(n) && !r.ambiguous && !mid.ambiguous
    requires RootMember(n, mid, Decoded(m.key), m.value)
    requires RootNotes(mid, r, LastMember(rest, Ascii("type")), LastMember(rest, Ascii("payload")), LastMember(rest, Ascii("message")))
    requires MembersOk([m] + rest)
    ensures RootNotes(n, r, LastMember([m] + rest, Ascii("type")), LastMember([m] + rest, Ascii("payload")),
                      LastMember([m] + rest, Ascii("message")))
  {
    NamesDiffer();
    LastOf(m, rest, Ascii("type"));
    LastOf(m, rest, Ascii("payload"));
    LastOf(m, rest, Ascii("message"));
    hide Decoded, Ascii, WellFormed, LastMember, MembersOk, PiecesOk, Remembered;
  }

  lemma LastOf(m: Member, rest: seq<Member>, name: Units)
    requires MembersOk([m] + rest)
    ensures ([m] + rest)[1..] == rest && PiecesOk(m.key) && WellFormed(m.value) && MembersOk(rest)
    ensures LastMember([m] + rest, name) ==
            if LastMember(rest, name).Some? then LastMember(rest, name) else if Decoded(m.key) == name then Some(m.value) else None
  {
    assert ([m] + rest)[1..] == rest;
  }

  // ----- skipping is sound -----

  /** Cleaning a record keeps a string or blanks it. */
  predicate Cleaned(full: Strings, s: Strings)
  {
    (s.kind == full.kind || s.kind == []) && (s.payloadType == full.payloadType || s.payloadType == []) &&
    (s.role == full.role || s.role == [])
  }

  lemma AsciiIsInjective(a: string, b: string)
    requires Ascii(a) == Ascii(b)
    ensures a == b
  {
    forall i | 0 <= i < |a|
      ensures a[i] == b[i]
    {
      assert Ascii(a)[i] == Ascii(b)[i];
    }
  }

  lemma NotOneOf(name: string, names: seq<string>)
    requires name !in names
    ensures !OneOf(Ascii(name), names)
  {
    forall i | 0 <= i < |names|
      ensures Ascii(name) != Ascii(names[i])
    {
      if Ascii(name) == Ascii(names[i]) {
        AsciiIsInjective(name, names[i]);
      }
    }
  }

  lemma Unlike(a: string, b: string)
    requires a != b
    ensures Ascii(a) != Ascii(b)
  {
    if Ascii(a) == Ascii(b) {
      AsciiIsInjective(a, b);
    }
  }

  /** A short name is noted exactly when full decoding finds it. */
  lemma NotedIsDecoded(last: Option<Json>, name: string)
    requires last.Some? ==> WellFormed(last.value)
    requires 0 < |name| <= LONGEST_NAME
    ensures NotedFrom(last, []) == Ascii(name) <==> TextOf(last) == Ascii(name)
  {
    if last.Some? && last.value.Text? {
      RememberedName(last.value.pieces, Ascii(name));
    }
  }

  lemma NotesOfObject(v: Json)
    requires v.Object? && WellFormed(v)
    ensures var r := NoteMembers(NOTHING, Root, v.members);
            !r.ambiguous ==>
              && Noted(r, Type) == NotedFrom(LastMember(v.members, Ascii("type")), [])
              && Noted(r, PayloadType) == NotedFrom(Inside(LastMember(v.members, Ascii("payload")), Ascii("type")), [])
              && Noted(r, MessageRole) == NotedFrom(Inside(LastMember(v.members, Ascii("message")), Ascii("role")), [])
  {
    ObjectMembers(v);
    RootMembers(NOTHING, v.members);
    hide Ascii, NotedFrom, Inside, LastMember, NoteMembers, WellFormed, MembersOk;
  }

  /** If a short name was read in full, it was noted. */
  predicate Found(n: Notes, full: Strings, name: string)
  {
    && (Noted(n, Type) == Ascii(name) <==> full.kind == Ascii(name))
    && (Noted(n, PayloadType) == Ascii(name) <==> full.payloadType == Ascii(name))
    && (Noted(n, MessageRole) == Ascii(name) <==> full.role == Ascii(name))
  }

  lemma ShortNamesFound(v: Json, name: string)
    requires v.Object? && WellFormed(v) && 0 < |name| <= LONGEST_NAME
    requires !NoteMembers(NOTHING, Root, v.members).ambiguous
    ensures Found(NoteMembers(NOTHING, Root, v.members), FullStrings(v), name)
  {
    NotesOfObject(v);
    NotedIsDecoded(LastMember(v.members, Ascii("type")), name);
    NotedIsDecoded(Inside(LastMember(v.members, Ascii("payload")), Ascii("type")), name);
    NotedIsDecoded(Inside(LastMember(v.members, Ascii("message")), Ascii("role")), name);
    hide NotedFrom, TextOf, LastMember, Inside, NoteMembers, WellFormed;
  }

  lemma PiNeverSkipsUsage(n: Notes, full: Strings, s: Strings)
    requires Irrelevant(Pi, n) && Cleaned(full, s)
    requires Found(n, full, "message") && Found(n, full, "assistant") && Found(n, full, "session")
    ensures !UsageRecord(Pi, s) && !ContextRecord(Pi, s)
  {
    hide Ascii, Noted, OneOf;
    NotOneOf("message", PI_KINDS);
    NotOneOf("session", PI_KINDS);
    NotOneOf("assistant", PI_ROLES);
    Unlike("session", "message");
    NameIsNotEmpty("message");
    NameIsNotEmpty("assistant");
    NameIsNotEmpty("session");
  }

  lemma ClaudeNeverSkipsUsage(n: Notes, full: Strings, s: Strings)
    requires Irrelevant(ClaudeCode, n) && Cleaned(full, s) && Found(n, full, "assistant")
    ensures !UsageRecord(ClaudeCode, s) && !ContextRecord(ClaudeCode, s)
  {
    hide Ascii, Noted, OneOf;
    NotOneOf("assistant", CLAUDE_KINDS);
    NameIsNotEmpty("assistant");
  }

  lemma CodexNeverSkipsUsage(n: Notes, full: Strings, s: Strings)
    requires Irrelevant(Codex, n) && Cleaned(full, s)
    requires Found(n, full, "event_msg") && Found(n, full, "token_count") && Found(n, full, "session_meta")
    requires Found(n, full, "turn_context") && Found(n, full, "task_started")
    ensures !UsageRecord(Codex, s) && !ContextRecord(Codex, s)
  {
    hide Ascii, Noted, OneOf;
    NotOneOf("token_count", CODEX_EVENTS);
    NotOneOf("task_started", CODEX_EVENTS);
    Unlike("event_msg", "response_item");
    Unlike("session_meta", "response_item");
    Unlike("turn_context", "response_item");
    Unlike("session_meta", "event_msg");
    Unlike("turn_context", "event_msg");
    NameIsNotEmpty("event_msg");
    NameIsNotEmpty("token_count");
    NameIsNotEmpty("session_meta");
    NameIsNotEmpty("turn_context");
    NameIsNotEmpty("task_started");
  }

  lemma NameIsNotEmpty(name: string)
    requires name != ""
    ensures Ascii(name) != []
  {
    assert |Ascii(name)| > 0;
  }

  /** A record that the recogniser proves irrelevant is one that decoding it in full would
      have classified neither as usage nor as context, whatever is duplicated or nested
      in it and whatever cleaning blanks out. */
  lemma SkippingIsSound(h: Harness, v: Json, s: Strings)
    requires v.Object? && WellFormed(v) && Irrelevant(h, NoteMembers(NOTHING, Root, v.members))
    requires Cleaned(FullStrings(v), s)
    ensures !UsageRecord(h, s) && !ContextRecord(h, s)
  {
    var n := NoteMembers(NOTHING, Root, v.members);
    assert !n.ambiguous;
    hide NoteMembers, FullStrings, Found, WellFormed, Cleaned, UsageRecord, ContextRecord, Irrelevant;
    match h
    case OpenCode => NothingSkipped(n);
    case Pi =>
      ShortNamesFound(v, "message");
      ShortNamesFound(v, "assistant");
      ShortNamesFound(v, "session");
      PiNeverSkipsUsage(n, FullStrings(v), s);
    case ClaudeCode =>
      ShortNamesFound(v, "assistant");
      ClaudeNeverSkipsUsage(n, FullStrings(v), s);
    case Codex =>
      ShortNamesFound(v, "event_msg");
      ShortNamesFound(v, "token_count");
      ShortNamesFound(v, "session_meta");
      ShortNamesFound(v, "turn_context");
      ShortNamesFound(v, "task_started");
      CodexNeverSkipsUsage(n, FullStrings(v), s);
  }

  lemma NothingSkipped(n: Notes)
    ensures !Irrelevant(OpenCode, n)
  {
  }
}
