/** The recogniser that stands in for full decoding on oversized lines: it reads one
    byte at a time, keeps no more than a bounded token, and is proved to accept exactly
    the object texts of the grammar and to note exactly their discriminators. */
module StreamRecogniser {
  import opened Basics
  import opened Candidates
  import opened JsonNumber
  import opened JsonGrammar
  import opened JsonTheorems
  import opened Discriminators

  // ----- loops against recursive reading -----

  function PrependPieces(done: seq<Piece>, r: Option<ReadPieces>): Option<ReadPieces>
  {
    match r case None => None case Some(p) => Some(ReadPieces(done + p.pieces, p.rest))
  }

  function Spelled(ps: seq<Piece>): string
  {
    if ps == [] then "" else Spelled(ps[..|ps| - 1]) + ShowPiece(ps[|ps| - 1])
  }

  lemma {:induction false} SpelledClosed(ps: seq<Piece>, tail: seq<Piece>)
    ensures Spelled(ps) + ShowPieces(tail) == ShowPieces(ps + tail)
    decreases |ps|
  {
    hide ShowPiece;
    if ps == [] {
      assert ps + tail == tail;
    } else {
      var front, last := ps[..|ps| - 1], ps[|ps| - 1];
      SpelledClosed(front, [last] + tail);
      assert front + ([last] + tail) == ps + tail;
      assert ([last] + tail)[1..] == tail;
      JoinedPiece(Spelled(front), ShowPiece(last), ShowPieces(tail));
    }
  }

  lemma JoinedPiece(a: string, b: string, c: string)
    ensures a + (b + c) == a + b + c
  {
  }

  function PrependMembers(done: seq<Member>, r: Option<ReadMembers>): Option<ReadMembers>
  {
    match r case None => None case Some(m) => Some(ReadMembers(done + m.members, m.rest))
  }

  lemma PrependedMembers(done: seq<Member>, m: Member, r: Option<ReadMembers>)
    ensures PrependMembers(done, PrependMembers([m], r)) == PrependMembers(done + [m], r)
  {
    if r.Some? {
      assert done + ([m] + r.value.members) == done + [m] + r.value.members;
    }
  }

  lemma {:induction false} NotesExtend(n: Notes, parent: Place, ms: seq<Member>, m: Member)
    requires MembersOk(ms) && PiecesOk(m.key) && WellFormed(m.value) && MembersOk(ms + [m])
    ensures NoteMembers(n, parent, ms + [m]) == NoteMember(NoteMembers(n, parent, ms), parent, m)
    decreases |ms|
  {
    if ms == [] {
      assert ms + [m] == [m] && [m][1..] == [];
    } else {
      assert (ms + [m])[1..] == ms[1..] + [m];
      assert (ms + [m])[0] == ms[0];
      NotesExtend(NoteMember(n, parent, ms[0]), parent, ms[1..], m);
    }
  }

  lemma {:induction false} MembersExtend(ms: seq<Member>, m: Member)
    requires MembersOk(ms) && SpacesOk(m) && WellFormed(m.value)
    ensures MembersOk(ms + [m])
    decreases |ms|
  {
    if ms == [] {
      NoElements(0);
      assert ms + [m] == [m] && [m][1..] == [];
    } else {
      assert (ms + [m])[1..] == ms[1..] + [m];
      assert (ms + [m])[0] == ms[0];
      MembersExtend(ms[1..], m);
    }
  }

  // ----- bounded tokens -----

  datatype Token = Token(text: string, overflow: bool)

  function Remember(t: Token, b: char): Token
  {
    if t.overflow then t
    else if |t.text| >= MAX_TOKEN_BYTES then Token("", true)
    else Token(t.text + [b], false)
  }

  /** The token holds the bytes read so far, or knows that they were too many. */
  predicate Holds(t: Token, text: string)
  {
    if t.overflow then |text| > MAX_TOKEN_BYTES else t.text == text && |text| <= MAX_TOKEN_BYTES
  }

  lemma RememberHolds(t: Token, text: string, b: char)
    requires Holds(t, text)
    ensures Holds(Remember(t, b), text + [b])
  {
  }

  /** Decoding a complete, quoted token. */
  function DecodeToken(text: string): Units
  {
    if text == "" then []
    else match ParsePieces(text[1..]) case None => [] case Some(p) => Decoded(p.pieces)
  }

  lemma TokenDecodes(t: Token, ps: seq<Piece>)
    requires PiecesOk(ps) && Holds(t, "\"" + ShowPieces(ps))
    ensures (if t.overflow then [] else DecodeToken(t.text)) == Remembered(ps)
  {
    if !t.overflow {
      PiecesParsed(ps, "");
      assert t.text[1..] == ShowPieces(ps) + "";
    }
  }

  class StreamDiscriminator {
    const input: string
    var pos: nat
    var values: map<Place, Units>
    var seen: set<Place>
    var ambiguous: bool

    constructor (line: string)
      ensures input == line && Ready() && Rest() == line && Taken() == NOTHING
    {
      input := line;
      pos, values, seen, ambiguous := 0, map[], {}, false;
    }

    predicate Ready()
      reads this`pos
    {
      pos <= |input|
    }

    function Rest(): string
      requires Ready()
      reads this`pos
    {
      input[pos..]
    }

    function Taken(): Notes
      reads this
    {
      Notes(values, seen, ambiguous)
    }

    method ReadByte() returns (b: Option<char>)
      requires Ready()
      modifies this`pos
      ensures Ready()
      ensures if old(Rest()) == "" then b.None? && pos == old(pos)
              else b == Some(old(Rest())[0]) && Rest() == old(Rest())[1..] && pos == old(pos) + 1
    {
      if pos == |input| {
        return None;
      }
      b := Some(input[pos]);
      pos := pos + 1;
    }

    /** The next byte that is not space. */
    method Nonspace() returns (b: Option<char>)
      requires Ready()
      modifies this`pos
      ensures Ready() && pos >= old(pos)
      ensures var s := SkipSpace(old(Rest()));
              if s.rest == "" then b.None?
              else b == Some(s.rest[0]) && Rest() == s.rest[1..] && pos > old(pos) && input[pos - 1] == b.value
    {
      ghost var start := Rest();
      while true
        invariant Ready() && pos >= old(pos)
        invariant SkipSpace(start).rest == SkipSpace(Rest()).rest
        decreases |input| - pos
      {
        ghost var before := Rest();
        b := ReadByte();
        if b.None? || !IsSpace(b.value) {
          return;
        }
        assert SkipSpace(before).rest == SkipSpace(before[1..]).rest;
      }
    }

    /** Nothing but space may follow. */
    method Finish() returns (ok: bool)
      requires Ready()
      modifies this`pos
      ensures Ready() && (ok <==> SkipSpace(old(Rest())).rest == "")
    {
      var b := Nonspace();
      ok := b.None?;
    }

    /** The four hexadecimal digits of an escape. */
    method HexDigits(t: Token, ghost text: string) returns (ok: bool, t': Token)
      requires Ready() && Holds(t, text)
      modifies this`pos
      ensures Ready() && pos >= old(pos)
      ensures ok <==> FourHex(old(Rest()))
      ensures ok ==> Rest() == old(Rest())[4..] && Holds(t', text + old(Rest())[..4])
    {
      hide Remember, Holds, IsHex;
      ghost var start := Rest();
      t' := t;
      var i := 0;
      assert text + start[..0] == text;
      while i < 4
        invariant 0 <= i <= 4 && i <= |start| && Ready() && pos == old(pos) + i && Rest() == start[i..]
        invariant forall k :: 0 <= k < i ==> IsHex(start[k])
        invariant Holds(t', text + start[..i])
      {
        var digit := ReadByte();
        if digit.None? {
          return false, t';
        }
        assert digit.value == start[i];
        RememberHolds(t', text + start[..i], digit.value);
        assert text + start[..i] + [start[i]] == text + start[..i + 1];
        t' := Remember(t', digit.value);
        if !IsHex(digit.value) {
          return false, t';
        }
        i := i + 1;
      }
      ok := true;
    }

    /** One escape, its backslash already read. */
    method EscapeTail(t: Token, ghost text: string) returns (ok: bool, t': Token)
      requires Ready() && Holds(t, text)
      modifies this`pos
      ensures Ready() && pos >= old(pos)
      ensures ok <==> NextPiece("\\" + old(Rest())).Some?
      ensures ok ==> var (piece, after) := NextPiece("\\" + old(Rest())).value;
                     Rest() == after && Holds(t', text + ShowPiece(piece)[1..])
    {
      hide NextPiece, Holds, Remember, ShowPiece, FourHex, SimpleEscape;
      ghost var start := Rest();
      EscapeRead(start);
      t' := t;
      var escaped := ReadByte();
      if escaped.None? {
        return false, t';
      }
      RememberHolds(t', text, escaped.value);
      t' := Remember(t', escaped.value);
      if SimpleEscape(escaped.value) {
        return true, t';
      }
      if escaped.value != 'u' {
        return false, t';
      }
      ok, t' := HexDigits(t', text + ['u']);
      if ok {
        LongEnough(start[1..]);
        assert text + ['u'] + start[1..][..4] == text + (['u'] + start[1..][..4]);
      }
    }

    /** A string whose opening quote was read. */
    method String() returns (r: Option<Units>)
      requires Ready()
      modifies this`pos
      ensures Ready() && pos >= old(pos)
      ensures match ParsePieces(old(Rest()))
              case None => r.None?
              case Some(p) => r == Some(Remembered(p.pieces)) && Rest() == p.rest
    {
      hide NextPiece, Holds, Remember, ShowPiece, Spelled, ParsePieces, PieceOk, Remembered, DecodeToken;
      ghost var start := Rest();
      ghost var pieces: seq<Piece> := [];
      var token := Token("\"", false);
      NothingDone(ParsePieces(start));
      EmptyToken();
      while true
        invariant Ready() && pos >= old(pos)
        invariant PiecesOk(pieces)
        invariant ParsePieces(start) == PrependPieces(pieces, ParsePieces(Rest()))
        invariant Holds(token, "\"" + Spelled(pieces))
        decreases |input| - pos
      {
        ghost var here := Rest();
        PieceKinds(here);
        var b := ReadByte();
        if b.None? {
          return None;
        }
        RememberHolds(token, "\"" + Spelled(pieces), b.value);
        token := Remember(token, b.value);
        if b.value < ' ' {
          return None;
        }
        if b.value == '"' {
          TokenClosed(token, pieces);
          assert pieces + [] == pieces;
          return Some(if token.overflow then [] else DecodeToken(token.text));
        }
        assert here == [b.value] + Rest();
        if b.value == '\\' {
          var ok: bool;
          ok, token := EscapeTail(token, "\"" + Spelled(pieces) + [b.value]);
          if !ok {
            return None;
          }
        }
        ghost var piece := NextPiece(here).value.0;
        PieceTaken(start, pieces, here, piece, Rest());
        TokenGrown(pieces, piece, b.value);
        pieces := pieces + [piece];
      }
    }

    method Literal(tail: string) returns (ok: bool)
      requires Ready()
      modifies this`pos
      ensures Ready() && pos >= old(pos)
      ensures ok <==> tail <= old(Rest())
      ensures ok ==> Rest() == old(Rest())[|tail|..]
    {
      ghost var start := Rest();
      var i := 0;
      while i < |tail|
        invariant 0 <= i <= |tail| && Ready() && pos == old(pos) + i
        invariant tail[..i] <= start && Rest() == start[i..]
      {
        var b := ReadByte();
        if b.None? || b.value != tail[i] {
          return false;
        }
        i := i + 1;
      }
      assert tail[..i] == tail;
      ok := true;
    }

    /** A number whose first byte was read. What stops it is not consumed. */
    method Number(first: char) returns (ok: bool)
      requires Ready()
      modifies this`pos
      ensures Ready() && pos >= old(pos)
      ensures match ParseNumber([first] + old(Rest()))
              case None => !ok
              case Some((_, rest)) => ok && Rest() == rest
    {
      hide ParseNumber, Scanned, Step;
      ghost var start := Rest();
      FirstState(first, start);
      var state: State;
      if first == '0' {
        state := Zero2;
      } else if '1' <= first <= '9' {
        state := Int3;
      } else if first == '-' {
        state := Minus0;
      } else {
        return false;
      }
      ghost var initial := state;
      while true
        invariant Ready() && pos >= old(pos)
        invariant Scanned(initial, start).None? <==> Scanned(state, Rest()).None?
        invariant Scanned(initial, start).Some? ==> Scanned(initial, start).value.rest == Scanned(state, Rest()).value.rest
        decreases |input| - pos
      {
        ghost var here := Rest();
        ScannedStep(state, here);
        var b := ReadByte();
        if b.None? {
          return false;
        }
        var next := Step(state, b.value);
        if next.Some? {
          state := next.value;
        } else {
          pos := pos - 1;
          assert Rest() == here;
          return Final(state);
        }
      }
    }


    /** A member whose opening quote was read, up to and including what follows its value. */
    method MemberAfterQuote(parent: Place, depth: nat, ghost cur: string)
        returns (ok: bool, b: Option<char>, ghost m: Member)
      requires Ready() && SkipSpace(cur).rest == ['"'] + Rest() && depth < MAX_DEPTH
      modifies this
      ensures Ready() && pos >= old(pos)
      ensures ok <==> ParseMember(cur, depth).Some?
      ensures ok ==> m == ParseMember(cur, depth).value.0 && SpacesOk(m) && WellFormed(m.value) && pos > old(pos)
      ensures ok ==> Taken() == NoteMember(old(Taken()), parent, m)
      ensures ok ==> var rest := ParseMember(cur, depth).value.1;
                     if rest == "" then b.None? else b == Some(rest[0]) && Rest() == rest[1..]
      decreases |input| - pos, 0
    {
      hide ParseValue, ParsePieces, SkipSpace, WellFormed, NoteValue, Remembered, PiecesOk, AllSpace, ParseMember;
      b, m := None, Member("", [], "", "", Word(""), "");
      KeyUnfolded(cur);
      var key := String();
      if key.None? {
        MemberUnfolded(cur, depth);
        return false, b, m;
      }
      var child := PlaceOf(parent, key.value);
      if child != Other {
        if child in seen {
          ambiguous := true;
        }
        seen := seen + {child};
      }
      b := Nonspace();
      MemberUnfolded(cur, depth);
      if b.None? || b.value != ':' {
        return false, b, m;
      }
      ghost var named := Taken();
      ok := Value(child, depth + 1);
      if !ok {
        return false, b, m;
      }
      m := ParseMember(cur, depth).value.0;
      b := Nonspace();
    }

    /** The members of an object whose first byte that is not space was read. */
    method MembersFrom(parent: Place, depth: nat, first: char, ghost text: string) returns (ok: bool)
      requires Ready() && depth < MAX_DEPTH && SkipSpace(text).rest == [first] + Rest()
      modifies this
      ensures Ready() && pos >= old(pos)
      ensures ok <==> ParseMembers(text, depth).Some?
      ensures ok ==> var r := ParseMembers(text, depth).value;
                     MembersOk(r.members) && Rest() == r.rest && Taken() == NoteMembers(old(Taken()), parent, r.members)
      decreases |input| - pos, 1
    {
      hide ParseMembers, ParseMember, SkipSpace, WellFormed, NoteMember, NoteMembers, MembersOk, SpacesOk, Fits;
      ghost var before := Taken();
      ghost var cur, done: seq<Member> := text, [];
      var b := Some(first);
      NothingNoted(before, parent);
      NothingRead(ParseMembers(text, depth));
      while true
        invariant Ready() && pos >= old(pos) && b.Some?
        invariant SkipSpace(cur).rest == [b.value] + Rest()
        invariant ParseMembers(text, depth) == PrependMembers(done, ParseMembers(cur, depth))
        invariant MembersOk(done) && Taken() == NoteMembers(before, parent, done)
        decreases |input| - pos
      {
        MembersUnfolded(cur, depth);
        if b.value != '"' {
          NotAMember(cur, depth);
          return false;
        }
        ghost var m: Member;
        ok, b, m := MemberAfterQuote(parent, depth, cur);
        if !ok || b.None? {
          return false;
        }
        MembersExtend(done, m);
        SpacesPieces(m);
        NotesExtend(before, parent, done, m);
        if b.value == '}' {
          return true;
        }
        if b.value != ',' {
          return false;
        }
        cur := Rest();
        PrependedMembers(done, m, ParseMembers(cur, depth));
        done := done + [m];
        b := Nonspace();
        if b.None? {
          NoMembers(cur, depth);
          return false;
        }
      }
    }

    /** An object; at the outermost level its opening brace is still to be read. */
    method Object(parent: Place, depth: nat) returns (ok: bool)
      requires Ready()
      modifies this
      ensures Ready() && pos >= old(pos)
      ensures ok <==> depth < MAX_DEPTH && ObjectAt(old(Rest()), depth).Some?
      ensures ok ==> var (v, rest) := ObjectAt(old(Rest()), depth).value;
                     && v.Object? && WellFormed(v) && Fits(v, depth) && Rest() == rest
                     && Taken() == NoteMembers(old(Taken()), parent, v.members)
      decreases |input| - pos, 2
    {
      hide ParseMembers, ParseMember, SkipSpace, WellFormed, NoteMember, NoteMembers, MembersOk, SpacesOk, Fits;
      if depth >= MAX_DEPTH {
        return false;
      }
      var b: Option<char>;
      if depth == 0 {
        b := Nonspace();
        if b.None? || b.value != '{' {
          return false;
        }
      }
      ghost var text, before := Rest(), Taken();
      ObjectUnfolded(text, depth);
      b := Nonspace();
      if b.None? {
        NoMembers(text, depth);
        return false;
      }
      if b.value == '}' {
        NothingNoted(before, parent);
        return true;
      }
      ok := MembersFrom(parent, depth, b.value, text);
    }

    /** The elements of an array that has some. */
    method Elements(depth: nat) returns (ok: bool)
      requires Ready() && depth < MAX_DEPTH
      modifies this
      ensures Ready() && pos >= old(pos)
      ensures ok <==> ParseElements(old(Rest()), depth).Some?
      ensures ok ==> Rest() == ParseElements(old(Rest()), depth).value.rest && Taken() == old(Taken())
      decreases |input| - pos, 4
    {
      hide ParseValue, ParseElements, SkipSpace, WellFormed;
      ghost var text := Rest();
      ghost var cur := text;
      while true
        invariant Ready() && pos >= old(pos) && Rest() == cur && Taken() == old(Taken())
        invariant ParseElements(text, depth).Some? <==> ParseElements(cur, depth).Some?
        invariant ParseElements(text, depth).Some? ==> ParseElements(text, depth).value.rest == ParseElements(cur, depth).value.rest
        decreases |input| - pos
      {
        ElementsUnfolded(cur, depth);
        ok := Value(Other, depth + 1);
        if !ok {
          return;
        }
        InertValue(old(Taken()), Other, ParseValue(cur, depth + 1).value.value);
        var b := Nonspace();
        if b.None? {
          return false;
        }
        if b.value == ']' {
          return true;
        }
        if b.value != ',' {
          return false;
        }
        cur := Rest();
      }
    }

    /** An array whose opening bracket was read. */
    method Array(depth: nat) returns (ok: bool)
      requires Ready() && depth < MAX_DEPTH
      modifies this
      ensures Ready() && pos >= old(pos)
      ensures ok <==> ParseArray(old(Rest()), depth).Some?
      ensures ok ==> Rest() == ParseArray(old(Rest()), depth).value.1 && Taken() == old(Taken())
      decreases |input| - pos, 5
    {
      hide ParseArray, ParseElements, SkipSpace;
      ghost var inner := Rest();
      ArrayUnfolded(inner, depth);
      var b := Nonspace();
      if b.None? {
        NoMembers(inner, depth);
        return false;
      }
      if b.value == ']' {
        return true;
      }
      ghost var after := Rest();
      pos := pos - 1;
      assert Rest() == [b.value] + after;
      UnreadSpace(inner, Rest(), depth);
      ok := Elements(depth);
    }

    method Value(place: Place, depth: nat) returns (ok: bool)
      requires Ready() && depth > 0
      modifies this
      ensures Ready() && pos >= old(pos)
      ensures ok <==> ParseValue(old(Rest()), depth).Some?
      ensures ok ==> var r := ParseValue(old(Rest()), depth).value;
                     && pos > old(pos) && Rest() == r.rest && WellFormed(r.value)
                     && Taken() == NoteValue(old(Taken()), place, r.value)
      decreases |input| - pos, 3
    {
      hide ParseArray, ParseObject, ParsePieces, ParseNumber, SkipSpace, WellFormed, NoteValue, ParseValue, Remembered, PiecesOk,
           ParseScalar, NoteMembers, MembersOk, ParseElements;
      ghost var text, before := Rest(), Taken();
      ValueUnfolded(text, depth);
      ValueNoted(text, depth, before, place);
      if depth > MAX_DEPTH {
        return false;
      }
      var b := Nonspace();
      if b.None? {
        return false;
      }
      ghost var s := SkipSpace(text).rest;
      assert s == [b.value] + Rest();
      ScalarUnfolded(s);
      if b.value == '"' {
        var token := String();
        if token.None? {
          return false;
        }
        if place != Other {
          values := values[place := token.value];
        }
        return true;
      }
      if b.value == '{' {
        if depth >= MAX_DEPTH {
          return false;
        }
        ok := Object(place, depth);
        return;
      }
      if b.value == '[' {
        if depth >= MAX_DEPTH {
          return false;
        }
        ArrayUnfolded(Rest(), depth);
        ok := Array(depth);
        return;
      }
      if b.value == 't' {
        ok := Literal("rue");
        return;
      }
      if b.value == 'f' {
        ok := Literal("alse");
        return;
      }
      if b.value == 'n' {
        ok := Literal("ull");
        return;
      }
      ok := Number(b.value);
    }
  }

  /** What validating a line yields: nothing if it is not one object text, otherwise the
      notes taken of it. */
  method Recognise(line: string) returns (notes: Option<Notes>)
    ensures notes.Some? <==> exists v :: IsObjectText(line, v)
    ensures forall v :: IsObjectText(line, v) ==> notes == Some(NoteMembers(NOTHING, Root, v.members))
  {
    hide ParseObject, SkipSpace, Show, WellFormed, Fits, NoteMembers, IsObjectText;
    forall v
      ensures ParseLine(line) == Some(v) <==> IsObjectText(line, v)
      ensures IsObjectText(line, v) ==> v.Object? && MembersOk(v.members)
    {
      ReadingIsGrammar(line, v);
      ObjectTextMembers(line, v);
    }
    var discriminator := new StreamDiscriminator(line);
    var ok := discriminator.Object(Root, 0);
    if !ok {
      return None;
    }
    ok := discriminator.Finish();
    if !ok {
      return None;
    }
    assert ParseLine(line).Some?;
    notes := Some(discriminator.Taken());
  }

  lemma ObjectTextMembers(line: string, v: Json)
    ensures IsObjectText(line, v) ==> v.Object? && WellFormed(v) && MembersOk(v.members)
  {
    hide Show, Fits;
  }

  // ----- one step of the recursive reading -----

  function ParseMember(text: string, depth: nat): Option<(Member, string)>
  {
    match ParseKey(text)
    case None => None
    case Some(key) =>
      match ParseValue(key.rest, depth + 1)
      case None => None
      case Some(read) =>
        Some((Member(key.before, key.key, key.afterKey, read.before, read.value, SkipSpace(read.rest).space), SkipSpace(read.rest).rest))
  }

  function ObjectAt(text: string, depth: nat): Option<(Json, string)>
  {
    if depth > 0 then ParseObject(text, depth)
    else
      var s := SkipSpace(text).rest;
      if s == "" || s[0] != '{' then None else ParseObject(s[1..], depth)
  }

  lemma MembersUnfolded(text: string, depth: nat)
    ensures ParseMembers(text, depth) ==
            match ParseMember(text, depth)
            case None => None
            case Some((m, s)) =>
              if s == "" then None
              else if s[0] == '}' then Some(ReadMembers([m], s[1..]))
              else if s[0] == ',' then PrependMembers([m], ParseMembers(s[1..], depth))
              else None
  {
    hide ParseKey, ParseValue, SkipSpace;
  }

  lemma MemberSound(text: string, depth: nat)
    requires ParseMember(text, depth).Some?
    ensures SpacesOk(ParseMember(text, depth).value.0) && WellFormed(ParseMember(text, depth).value.0.value)
  {
    hide ParseKey, ParseValue, SkipSpace, Show, ShowPieces, WellFormed, Fits, PiecesOk, AllSpace;
    KeySound(text);
    ValueSound(ParseKey(text).value.rest, depth + 1);
    SkippedSpace(ParseValue(ParseKey(text).value.rest, depth + 1).value.rest);
  }

  lemma SkippedSpace(s: string)
    ensures AllSpace(SkipSpace(s).space)
  {
  }

  lemma SpacesPieces(m: Member)
    requires SpacesOk(m)
    ensures PiecesOk(m.key)
  {
  }

  /** A member's name, its opening quote apart. */
  lemma KeyUnfolded(text: string)
    requires SkipSpace(text).rest != "" && SkipSpace(text).rest[0] == '"'
    ensures match ParsePieces(SkipSpace(text).rest[1..])
            case None => ParseKey(text).None?
            case Some(p) =>
              var t := SkipSpace(p.rest).rest;
              if t == "" || t[0] != ':' then ParseKey(text).None?
              else ParseKey(text) == Some(ReadKey(SkipSpace(text).space, p.pieces, SkipSpace(p.rest).space, t[1..]))
  {
    hide ParsePieces, SkipSpace;
  }

  lemma MemberUnfolded(text: string, depth: nat)
    ensures ParseKey(text).None? ==> ParseMember(text, depth).None?
    ensures ParseKey(text).Some? ==>
              var key := ParseKey(text).value;
              var read := ParseValue(key.rest, depth + 1);
              (ParseMember(text, depth).Some? <==> read.Some?) &&
              (read.Some? ==> var (m, s) := ParseMember(text, depth).value;
                              m.key == key.key && m.value == read.value.value && s == SkipSpace(read.value.rest).rest)
    ensures ParseMember(text, depth).Some? ==>
              SpacesOk(ParseMember(text, depth).value.0) && WellFormed(ParseMember(text, depth).value.0.value)
  {
    hide ParseKey, ParseValue, SkipSpace, WellFormed;
    if ParseMember(text, depth).Some? {
      MemberSound(text, depth);
    }
  }

  /** An object, its opening brace apart. */
  lemma ObjectUnfolded(text: string, depth: nat)
    requires depth < MAX_DEPTH
    ensures var s := SkipSpace(text).rest;
            && (s != "" && s[0] == '}' ==> ParseObject(text, depth) == Some((Object(SkipSpace(text).space, []), s[1..])))
            && (s == "" || s[0] != '}' ==>
                  match ParseMembers(text, depth)
                  case None => ParseObject(text, depth).None?
                  case Some(r) => ParseObject(text, depth) == Some((Object("", r.members), r.rest)))
    ensures ParseObject(text, depth).Some? ==>
              var v := ParseObject(text, depth).value.0;
              v.Object? && WellFormed(v) && MembersOk(v.members) && Fits(v, depth)
  {
    hide ParseMembers, SkipSpace, Fits, Show;
    if ParseObject(text, depth).Some? {
      ObjectSound(text, depth);
    }
  }

  lemma NoMembers(text: string, depth: nat)
    ensures SkipSpace(text).rest == "" ==> ParseMembers(text, depth).None?
    ensures SkipSpace(text).rest == "" ==> ParseElements(text, depth).None?
  {
  }

  lemma NotAMember(text: string, depth: nat)
    ensures SkipSpace(text).rest != "" && SkipSpace(text).rest[0] != '"' ==> ParseMembers(text, depth).None?
  {
  }

  lemma NothingNoted(n: Notes, parent: Place)
    ensures MembersOk([]) && NoteMembers(n, parent, []) == n
  {
  }

  lemma NothingRead(r: Option<ReadMembers>)
    ensures PrependMembers([], r) == r
  {
    if r.Some? {
      assert [] + r.value.members == r.value.members;
    }
  }

  lemma ElementsUnfolded(text: string, depth: nat)
    ensures match ParseValue(text, depth + 1)
            case None => ParseElements(text, depth).None?
            case Some(read) =>
              var s := SkipSpace(read.rest).rest;
              if s == "" then ParseElements(text, depth).None?
              else if s[0] == ']' then ParseElements(text, depth).Some? && ParseElements(text, depth).value.rest == s[1..]
              else if s[0] == ',' then
                (ParseElements(text, depth).Some? <==> ParseElements(s[1..], depth).Some?) &&
                (ParseElements(text, depth).Some? ==> ParseElements(text, depth).value.rest == ParseElements(s[1..], depth).value.rest)
              else ParseElements(text, depth).None?
  {
    hide ParseValue, SkipSpace;
  }

  lemma ArrayUnfolded(text: string, depth: nat)
    ensures ParseArray(text, depth).Some? ==> ParseArray(text, depth).value.0.Array?
    ensures var s := SkipSpace(text).rest;
            if s != "" && s[0] == ']' then ParseArray(text, depth).Some? && ParseArray(text, depth).value.1 == s[1..]
            else (ParseArray(text, depth).Some? <==> ParseElements(text, depth).Some?) &&
                 (ParseArray(text, depth).Some? ==> ParseArray(text, depth).value.1 == ParseElements(text, depth).value.rest)
  {
    hide ParseElements, SkipSpace;
  }

  /** Space before the first element does not matter. */
  lemma UnreadSpace(text: string, unread: string, depth: nat)
    requires unread == SkipSpace(text).rest
    ensures ParseElements(text, depth).Some? <==> ParseElements(unread, depth).Some?
    ensures ParseElements(text, depth).Some? ==> ParseElements(text, depth).value.rest == ParseElements(unread, depth).value.rest
  {
    assert "" + unread == unread;
    SpaceSkipped("", unread);
    ValueIgnoresSpace(text, unread, depth + 1);
    hide SkipSpace, ParseValue;
    ElementsUnfolded(text, depth);
    ElementsUnfolded(unread, depth);
  }

  lemma ValueIgnoresSpace(text: string, unread: string, depth: nat)
    requires SkipSpace(unread).rest == SkipSpace(text).rest
    ensures ParseValue(text, depth).Some? <==> ParseValue(unread, depth).Some?
    ensures ParseValue(text, depth).Some? ==> ParseValue(text, depth).value.rest == ParseValue(unread, depth).value.rest
  {
    hide SkipSpace, ParseArray, ParseObject, ParseScalar;
  }

  /** What the first byte of a value decides. */
  lemma ValueUnfolded(text: string, depth: nat)
    ensures var s, r := SkipSpace(text).rest, ParseValue(text, depth);
            && (depth > MAX_DEPTH || s == "" ==> r.None?)
            && (depth <= MAX_DEPTH && s != "" ==>
                  if s[0] == '{' then
                    (r.Some? <==> depth < MAX_DEPTH && ParseObject(s[1..], depth).Some?) &&
                    (r.Some? ==> r.value.value == ParseObject(s[1..], depth).value.0 && r.value.rest == ParseObject(s[1..], depth).value.1)
                  else if s[0] == '[' then
                    (r.Some? <==> depth < MAX_DEPTH && ParseArray(s[1..], depth).Some?) &&
                    (r.Some? ==> r.value.value == ParseArray(s[1..], depth).value.0 && r.value.rest == ParseArray(s[1..], depth).value.1)
                  else
                    (r.Some? <==> ParseScalar(s).Some?) &&
                    (r.Some? ==> r.value.value == ParseScalar(s).value.0 && r.value.rest == ParseScalar(s).value.1))
  {
    hide SkipSpace, ParseArray, ParseObject, ParseScalar;
  }

  lemma ScalarUnfolded(s: string)
    requires s != ""
    ensures var r := ParseScalar(s);
            if s[0] == '"' then
              (match ParsePieces(s[1..]) case None => r.None? case Some(p) => r == Some((Text(p.pieces), p.rest)))
            else
              (r.Some? ==> r.value.0.Word? || r.value.0.Number?) &&
              (if s[0] == 't' then (r.Some? <==> "rue" <= s[1..]) && (r.Some? ==> r.value.1 == s[1..][3..])
               else if s[0] == 'f' then (r.Some? <==> "alse" <= s[1..]) && (r.Some? ==> r.value.1 == s[1..][4..])
               else if s[0] == 'n' then (r.Some? <==> "ull" <= s[1..]) && (r.Some? ==> r.value.1 == s[1..][3..])
               else r == ParseNumber(s))
  {
    hide ParsePieces, Scanned, Step;
    if s[0] == 't' {
      WordAfterFirst("true", s);
      assert "true"[1..] == "rue";
    } else if s[0] == 'f' {
      WordAfterFirst("false", s);
      assert "false"[1..] == "alse";
    } else if s[0] == 'n' {
      WordAfterFirst("null", s);
      assert "null"[1..] == "ull";
    }
  }

  lemma WordAfterFirst(word: string, s: string)
    requires word != "" && s != "" && s[0] == word[0]
    ensures word <= s <==> word[1..] <= s[1..]
    ensures word <= s ==> s[|word|..] == s[1..][|word| - 1..]
  {
    if word[1..] <= s[1..] {
      assert forall i :: 0 < i < |word| ==> word[i] == word[1..][i - 1] == s[1..][i - 1] == s[i];
    }
    if word <= s {
      assert forall i :: 0 <= i < |word| - 1 ==> word[1..][i] == word[i + 1] == s[i + 1] == s[1..][i];
    }
  }

  /** What a value adds to the notes, by kind. */
  lemma ValueNoted(text: string, depth: nat, n: Notes, place: Place)
    ensures ParseValue(text, depth).Some? ==>
              var v := ParseValue(text, depth).value.value;
              && WellFormed(v)
              && (v.Text? ==> PiecesOk(v.pieces) && NoteValue(n, place, v) == NoteText(n, place, v.pieces))
              && (v.Object? ==> MembersOk(v.members) && NoteValue(n, place, v) == NoteMembers(n, place, v.members))
              && (!v.Text? && !v.Object? ==> NoteValue(n, place, v) == n)
  {
    hide ParseValue, NoteMembers, Fits, Show;
    if ParseValue(text, depth).Some? {
      ValueSound(text, depth);
    }
  }

  lemma FirstState(first: char, start: string)
    ensures var q := if first == '0' then Some(Zero2) else if '1' <= first <= '9' then Some(Int3)
                     else if first == '-' then Some(Minus0) else None;
            match ParseNumber([first] + start)
            case None => q.None? || Scanned(q.value, start).None?
            case Some((_, rest)) => q.Some? && Scanned(q.value, start).Some? && Scanned(q.value, start).value.rest == rest
  {
    assert ([first] + start)[1..] == start;
    hide Scanned;
  }

  lemma ScannedStep(q: State, s: string)
    ensures s == "" ==> Scanned(q, s).None?
    ensures s != "" && Step(q, s[0]).None? ==> Scanned(q, s) == if Final(q) then Some(Scan("", s)) else None
    ensures s != "" && Step(q, s[0]).Some? ==>
              var later := Scanned(Step(q, s[0]).value, s[1..]);
              (Scanned(q, s).None? <==> later.None?) && (later.Some? ==> Scanned(q, s).value.rest == later.value.rest)
  {
    hide Step;
  }

  predicate FourHex(s: string)
  {
    |s| >= 4 && IsHex(s[0]) && IsHex(s[1]) && IsHex(s[2]) && IsHex(s[3])
  }

  lemma LongEnough(s: string)
    requires FourHex(s)
    ensures |s| >= 4
  {
  }

  lemma EscapeRead(start: string)
    ensures var r := NextPiece("\\" + start);
            if start == "" then r.None?
            else if SimpleEscape(start[0]) then r == Some((Escape(start[0]), start[1..])) && ShowPiece(r.value.0)[1..] == [start[0]]
            else if start[0] == 'u' && FourHex(start[1..])
                 then r.Some? && r.value.1 == start[1..][4..] && ShowPiece(r.value.0)[1..] == ['u'] + start[1..][..4]
            else r.None?
  {
    var whole := "\\" + start;
    if start != "" {
      assert whole[0] == '\\' && whole[1] == start[0];
      assert whole[2..] == start[1..];
      if FourHex(start[1..]) {
        assert whole[2] == start[1..][0] && whole[3] == start[1..][1] && whole[4] == start[1..][2] && whole[5] == start[1..][3];
        assert whole[6..] == start[1..][4..];
        assert start[1..][..4] == [whole[2], whole[3], whole[4], whole[5]];
      }
    }
  }

  /** How a string goes on. */
  lemma PieceKinds(here: string)
    ensures here == "" || here[0] < ' ' ==> ParsePieces(here).None?
    ensures here != "" && here[0] == '"' ==> ParsePieces(here) == Some(ReadPieces([], here[1..]))
    ensures here != "" && here[0] != '"' && NextPiece(here).None? ==> ParsePieces(here).None?
    ensures here != "" && here[0] >= ' ' && here[0] != '"' && here[0] != '\\' ==> NextPiece(here) == Some((Plain(here[0]), here[1..]))
    ensures NextPiece(here).Some? ==> here != "" && ShowPiece(NextPiece(here).value.0) == [here[0]] + ShowPiece(NextPiece(here).value.0)[1..]
    ensures NextPiece(here).Some? ==> PieceOk(NextPiece(here).value.0)
  {
  }

  lemma TokenClosed(t: Token, ps: seq<Piece>)
    requires PiecesOk(ps) && Holds(t, "\"" + Spelled(ps) + ['"'])
    ensures (if t.overflow then [] else DecodeToken(t.text)) == Remembered(ps)
  {
    SpelledClosed(ps, []);
    assert ps + [] == ps && ShowPieces([]) == "\"";
    assert "\"" + Spelled(ps) + ['"'] == "\"" + ShowPieces(ps);
    hide Spelled, ShowPieces;
    TokenDecodes(t, ps);
  }

  lemma EmptyToken()
    ensures Holds(Token("\"", false), "\"" + Spelled([]))
  {
  }

  lemma TokenGrown(pieces: seq<Piece>, piece: Piece, b: char)
    requires ShowPiece(piece) == [b] + ShowPiece(piece)[1..]
    ensures "\"" + Spelled(pieces) + [b] + ShowPiece(piece)[1..] == "\"" + Spelled(pieces + [piece])
    ensures piece == Plain(b) ==> "\"" + Spelled(pieces) + [b] == "\"" + Spelled(pieces + [piece])
  {
    assert (pieces + [piece])[..|pieces|] == pieces;
    assert "\"" + Spelled(pieces) + ([b] + ShowPiece(piece)[1..]) == "\"" + Spelled(pieces) + [b] + ShowPiece(piece)[1..];
  }

  lemma PieceTaken(start: string, pieces: seq<Piece>, here: string, piece: Piece, after: string)
    requires ParsePieces(start) == PrependPieces(pieces, ParsePieces(here))
    requires NextPiece(here) == Some((piece, after)) && here != "" && here[0] != '"'
    ensures ParsePieces(start) == PrependPieces(pieces + [piece], ParsePieces(after))
  {
    hide *;
    ParseStep(here, piece, after);
    PrependedPieces(pieces, piece, ParsePieces(after));
  }

  lemma PrependedPieces(done: seq<Piece>, piece: Piece, r: Option<ReadPieces>)
    ensures PrependPieces(done, PrependPieces([piece], r)) == PrependPieces(done + [piece], r)
  {
    if r.Some? {
      assert done + ([piece] + r.value.pieces) == done + [piece] + r.value.pieces;
    }
  }

  lemma ParseStep(here: string, piece: Piece, after: string)
    requires NextPiece(here) == Some((piece, after)) && here != "" && here[0] != '"'
    ensures ParsePieces(here) == PrependPieces([piece], ParsePieces(after))
  {
    hide NextPiece, ShowPieces;
  }

  lemma NothingDone(r: Option<ReadPieces>)
    ensures PrependPieces([], r) == r
  {
    if r.Some? {
      assert [] + r.value.pieces == r.value.pieces;
    }
  }
}
