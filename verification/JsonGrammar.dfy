/** JSON texts of RFC 8259, sections 2 to 7, as concrete syntax trees: every byte of a
    text has its place in the tree, and Show writes the text back. Bytes are chars;
    those above 127 are opaque. */
module JsonGrammar {
  import opened Basics
  import opened JsonNumber

  const MAX_DEPTH: nat := 10000

  datatype Piece = Plain(c: char) | Escape(c: char) | Unicode(a: char, b: char, c: char, d: char)

  datatype Json =
    | Word(text: string)
    | Number(text: string)
    | Text(pieces: seq<Piece>)
    | Array(space: string, elements: seq<Element>)
    | Object(space: string, members: seq<Member>)

  datatype Element = Element(before: string, value: Json, after: string)

  datatype Member = Member(before: string, key: seq<Piece>, afterKey: string, beforeValue: string, value: Json, after: string)

  // ----- lexical parts -----

  predicate IsSpace(c: char)
  {
    c == ' ' || c == '\t' || c == '\n' || c == '\r'
  }

  predicate AllSpace(s: string)
  {
    forall i :: 0 <= i < |s| ==> IsSpace(s[i])
  }

  predicate IsHex(c: char)
  {
    '0' <= c <= '9' || 'a' <= c <= 'f' || 'A' <= c <= 'F'
  }

  predicate SimpleEscape(c: char)
  {
    c == '"' || c == '\\' || c == '/' || c == 'b' || c == 'f' || c == 'n' || c == 'r' || c == 't'
  }

  predicate PieceOk(p: Piece)
  {
    match p
    case Plain(c) => ' ' <= c && c != '"' && c != '\\'
    case Escape(c) => SimpleEscape(c)
    case Unicode(a, b, c, d) => IsHex(a) && IsHex(b) && IsHex(c) && IsHex(d)
  }

  predicate PiecesOk(ps: seq<Piece>)
  {
    forall i :: 0 <= i < |ps| ==> PieceOk(ps[i])
  }

  /** The characters of each class by their code, as RFC 8259 lists them in sections 2
      and 7: the four kinds of space, hexadecimal digits, what may follow a backslash, and
      what stands for itself in a string. */
  lemma ClassesByCode(c: char)
    ensures IsSpace(c) <==> c as int in {0x20, 0x09, 0x0A, 0x0D}
    ensures IsHex(c) <==> 0x30 <= c as int <= 0x39 || 0x41 <= c as int <= 0x46 || 0x61 <= c as int <= 0x66
    ensures SimpleEscape(c) <==> c as int in {0x22, 0x5C, 0x2F, 0x62, 0x66, 0x6E, 0x72, 0x74}
    ensures PieceOk(Plain(c)) <==> c as int >= 0x20 && c as int != 0x22 && c as int != 0x5C
    ensures IsDigit(c) <==> 0x30 <= c as int <= 0x39
  {
  }

  predicate IsWord(s: string)
  {
    s == "true" || s == "false" || s == "null"
  }

  // ----- text -----

  function ShowPiece(p: Piece): string
  {
    match p
    case Plain(c) => [c]
    case Escape(c) => ['\\', c]
    case Unicode(a, b, c, d) => ['\\', 'u', a, b, c, d]
  }

  /** The pieces of a string with its closing quote. */
  function ShowPieces(ps: seq<Piece>): string
  {
    if ps == [] then "\"" else ShowPiece(ps[0]) + ShowPieces(ps[1..])
  }

  function Show(v: Json): string
    decreases v, 1
  {
    match v
    case Word(text) => text
    case Number(text) => text
    case Text(pieces) => "\"" + ShowPieces(pieces)
    case Array(space, elements) => "[" + if elements == [] then space + "]" else ShowElements(elements)
    case Object(space, members) => "{" + if members == [] then space + "}" else ShowMembers(members)
  }

  function ShowElements(es: seq<Element>): string
    requires es != []
    decreases es, 0
  {
    es[0].before + Show(es[0].value) + es[0].after + if |es| == 1 then "]" else "," + ShowElements(es[1..])
  }

  function ShowMembers(ms: seq<Member>): string
    requires ms != []
    decreases ms, 0
  {
    ms[0].before + "\"" + ShowPieces(ms[0].key) + ms[0].afterKey + ":" + ms[0].beforeValue + Show(ms[0].value) + ms[0].after
    + if |ms| == 1 then "}" else "," + ShowMembers(ms[1..])
  }

  // ----- the grammar -----

  ghost predicate WellFormed(v: Json)
    decreases v, 1
  {
    match v
    case Word(text) => IsWord(text)
    case Number(text) => IsNumber(text)
    case Text(pieces) => PiecesOk(pieces)
    case Array(space, elements) => AllSpace(space) && (elements != [] ==> space == "") && ElementsOk(elements)
    case Object(space, members) => AllSpace(space) && (members != [] ==> space == "") && MembersOk(members)
  }

  ghost predicate ElementsOk(es: seq<Element>)
    decreases es, 0
  {
    es != [] ==> AllSpace(es[0].before) && WellFormed(es[0].value) && AllSpace(es[0].after) && ElementsOk(es[1..])
  }

  ghost predicate MembersOk(ms: seq<Member>)
    decreases ms, 0
  {
    ms != [] ==> AllSpace(ms[0].before) && PiecesOk(ms[0].key) && AllSpace(ms[0].afterKey) && AllSpace(ms[0].beforeValue)
                 && WellFormed(ms[0].value) && AllSpace(ms[0].after) && MembersOk(ms[1..])
  }

  /** Containers nest at most to the limit; a value at depth d may be no taller than
      what is left of it. */
  predicate Fits(v: Json, depth: nat)
    decreases v, 1
  {
    match v
    case Array(_, elements) => depth < MAX_DEPTH && ElementsFit(elements, depth + 1)
    case Object(_, members) => depth < MAX_DEPTH && MembersFit(members, depth + 1)
    case _ => depth <= MAX_DEPTH
  }

  predicate ElementsFit(es: seq<Element>, depth: nat)
    decreases es, 0
  {
    es != [] ==> Fits(es[0].value, depth) && ElementsFit(es[1..], depth)
  }

  predicate MembersFit(ms: seq<Member>, depth: nat)
    decreases ms, 0
  {
    ms != [] ==> Fits(ms[0].value, depth) && MembersFit(ms[1..], depth)
  }

  /** A line is one object with nothing but space around it. */
  ghost predicate IsObjectText(line: string, v: Json)
  {
    v.Object? && WellFormed(v) && Fits(v, 0) &&
    exists before: string, after: string :: AllSpace(before) && AllSpace(after) && line == before + Show(v) + after
  }

  // ----- reading -----

  datatype Spaced = Spaced(space: string, rest: string)

  function SkipSpace(s: string): (r: Spaced)
    ensures s == r.space + r.rest && AllSpace(r.space)
    ensures r.rest == "" || !IsSpace(r.rest[0])
  {
    if s == "" || !IsSpace(s[0]) then Spaced("", s)
    else
      var r := SkipSpace(s[1..]);
      Spaced([s[0]] + r.space, r.rest)
  }

  lemma {:induction false} SpaceSkipped(space: string, rest: string)
    requires AllSpace(space) && (rest == "" || !IsSpace(rest[0]))
    ensures SkipSpace(space + rest) == Spaced(space, rest)
  {
    if space == "" {
      assert space + rest == rest;
    } else {
      assert (space + rest)[1..] == space[1..] + rest;
      SpaceSkipped(space[1..], rest);
    }
  }

  datatype ReadPieces = ReadPieces(pieces: seq<Piece>, rest: string)

  /** The next piece of a string whose opening quote was read, and what follows. */
  function NextPiece(s: string): (r: Option<(Piece, string)>)
    ensures r.Some? ==> s == ShowPiece(r.value.0) + r.value.1 && PieceOk(r.value.0)
  {
    if s == "" || s[0] < ' ' || s[0] == '"' then None
    else if s[0] != '\\' then Some((Plain(s[0]), s[1..]))
    else if |s| < 2 then None
    else if SimpleEscape(s[1]) then Some((Escape(s[1]), s[2..]))
    else if s[1] == 'u' && |s| >= 6 && IsHex(s[2]) && IsHex(s[3]) && IsHex(s[4]) && IsHex(s[5]) then
      Some((Unicode(s[2], s[3], s[4], s[5]), s[6..]))
    else None
  }

  function ParsePieces(s: string): (r: Option<ReadPieces>)
    ensures r.Some? ==> s == ShowPieces(r.value.pieces) + r.value.rest && PiecesOk(r.value.pieces)
  {
    if s != "" && s[0] == '"' then Some(ReadPieces([], s[1..]))
    else
      match NextPiece(s)
      case None => None
      case Some((piece, after)) =>
        (match ParsePieces(after)
         case None => None
         case Some(r) =>
           assert ([piece] + r.pieces)[1..] == r.pieces;
           Some(ReadPieces([piece] + r.pieces, r.rest)))
  }

  lemma {:induction false} PiecesParsed(ps: seq<Piece>, rest: string)
    requires PiecesOk(ps)
    ensures ParsePieces(ShowPieces(ps) + rest) == Some(ReadPieces(ps, rest))
  {
    hide ShowPiece, NextPiece, PieceOk;
    var s := ShowPieces(ps) + rest;
    if ps == [] {
      assert s[1..] == rest;
    } else {
      PiecesParsed(ps[1..], rest);
      assert s == ShowPiece(ps[0]) + (ShowPieces(ps[1..]) + rest);
      PieceRead(ps[0], ShowPieces(ps[1..]) + rest);
      assert [ps[0]] + ps[1..] == ps;
    }
  }

  lemma PieceRead(p: Piece, after: string)
    requires PieceOk(p)
    ensures NextPiece(ShowPiece(p) + after) == Some((p, after))
    ensures (ShowPiece(p) + after)[0] != '"'
  {
    var s := ShowPiece(p) + after;
    assert s[|ShowPiece(p)|..] == after;
  }

  datatype Read = Read(before: string, value: Json, rest: string)

  datatype ReadElements = ReadElements(elements: seq<Element>, rest: string)

  datatype ReadMembers = ReadMembers(members: seq<Member>, rest: string)

  function ParseWord(word: string, s: string): Option<(Json, string)>
  {
    if word <= s then Some((Word(word), s[|word|..])) else None
  }

  function ParseNumber(s: string): Option<(Json, string)>
    requires s != ""
  {
    match Step(Start, s[0])
    case None => None
    case Some(q) =>
      match Scanned(q, s[1..])
      case None => None
      case Some(scan) => Some((Number([s[0]] + scan.text), scan.rest))
  }

  /** A value that is not a container. */
  function ParseScalar(s: string): (r: Option<(Json, string)>)
    requires s != ""
    ensures r.Some? ==> |r.value.1| < |s|
  {
    if s[0] == '"' then
      match ParsePieces(s[1..]) case None => None case Some(p) => Some((Text(p.pieces), p.rest))
    else if s[0] == 't' then ParseWord("true", s)
    else if s[0] == 'f' then ParseWord("false", s)
    else if s[0] == 'n' then ParseWord("null", s)
    else ParseNumber(s)
  }

  function ParseValue(text: string, depth: nat): (r: Option<Read>)
    ensures r.Some? ==> |r.value.rest| < |text|
    decreases |text|, 1
  {
    var space, s := SkipSpace(text).space, SkipSpace(text).rest;
    if depth > MAX_DEPTH || s == "" then None
    else if s[0] == '{' then
      if depth >= MAX_DEPTH then None
      else match ParseObject(s[1..], depth) case None => None case Some((v, rest)) => Some(Read(space, v, rest))
    else if s[0] == '[' then
      if depth >= MAX_DEPTH then None
      else match ParseArray(s[1..], depth) case None => None case Some((v, rest)) => Some(Read(space, v, rest))
    else match ParseScalar(s) case None => None case Some((v, rest)) => Some(Read(space, v, rest))
  }

  function ParseArray(text: string, depth: nat): (r: Option<(Json, string)>)
    ensures r.Some? ==> |r.value.1| < |text|
    decreases |text|, 3
  {
    var space, s := SkipSpace(text).space, SkipSpace(text).rest;
    if s != "" && s[0] == ']' then Some((Array(space, []), s[1..]))
    else match ParseElements(text, depth) case None => None case Some(r) => Some((Array("", r.elements), r.rest))
  }

  function ParseElements(text: string, depth: nat): (r: Option<ReadElements>)
    ensures r.Some? ==> |r.value.rest| < |text| && r.value.elements != []
    decreases |text|, 2
  {
    match ParseValue(text, depth + 1)
    case None => None
    case Some(read) =>
      var after, s := SkipSpace(read.rest).space, SkipSpace(read.rest).rest;
      var element := Element(read.before, read.value, after);
      if s == "" then None
      else if s[0] == ']' then Some(ReadElements([element], s[1..]))
      else if s[0] == ',' then
        match ParseElements(s[1..], depth) case None => None case Some(r) => Some(ReadElements([element] + r.elements, r.rest))
      else None
  }

  function ParseObject(text: string, depth: nat): (r: Option<(Json, string)>)
    ensures r.Some? ==> |r.value.1| < |text|
    decreases |text|, 3
  {
    var space, s := SkipSpace(text).space, SkipSpace(text).rest;
    if s != "" && s[0] == '}' then Some((Object(space, []), s[1..]))
    else match ParseMembers(text, depth) case None => None case Some(r) => Some((Object("", r.members), r.rest))
  }

  datatype ReadKey = ReadKey(before: string, key: seq<Piece>, afterKey: string, rest: string)

  /** A member's name with its colon. */
  function ParseKey(text: string): (r: Option<ReadKey>)
    ensures r.Some? ==> |r.value.rest| < |text|
  {
    var before, s := SkipSpace(text).space, SkipSpace(text).rest;
    if s == "" || s[0] != '"' then None
    else
      match ParsePieces(s[1..])
      case None => None
      case Some(key) =>
        var afterKey, t := SkipSpace(key.rest).space, SkipSpace(key.rest).rest;
        if t == "" || t[0] != ':' then None else Some(ReadKey(before, key.pieces, afterKey, t[1..]))
  }

  function ParseMembers(text: string, depth: nat): (r: Option<ReadMembers>)
    ensures r.Some? ==> |r.value.rest| < |text| && r.value.members != []
    decreases |text|, 2
  {
    match ParseKey(text)
    case None => None
    case Some(key) =>
      match ParseValue(key.rest, depth + 1)
      case None => None
      case Some(read) =>
        var after, s := SkipSpace(read.rest).space, SkipSpace(read.rest).rest;
        var member := Member(key.before, key.key, key.afterKey, read.before, read.value, after);
        if s == "" then None
        else if s[0] == '}' then Some(ReadMembers([member], s[1..]))
        else if s[0] == ',' then
          match ParseMembers(s[1..], depth) case None => None case Some(r) => Some(ReadMembers([member] + r.members, r.rest))
        else None
  }

  /** One object and nothing else on the line. */
  function ParseLine(line: string): Option<Json>
  {
    var s := SkipSpace(line).rest;
    if s == "" || s[0] != '{' then None
    else
      match ParseObject(s[1..], 0)
      case None => None
      case Some((v, rest)) => if SkipSpace(rest).rest == "" then Some(v) else None
  }
}
