/** Reading a text as the recogniser does finds its syntax tree, and only its tree. */
module JsonTheorems {
  import opened Basics
  import opened JsonNumber
  import opened JsonGrammar

  // ----- regrouping text -----

  lemma Regroup(text: string, shown: string, s: string, mark: char, inner: string, rest: string)
    requires text == shown + s && s != "" && s[0] == mark && s[1..] == inner + rest
    ensures text == shown + [mark] + inner + rest
  {
    assert s == [mark] + s[1..];
  }

  lemma RegroupValue(text: string, before: string, value: string, after: string, s: string)
    requires text == before + value + (after + s)
    ensures text == before + value + after + s
  {
  }

  lemma RegroupKey(text: string, before: string, s: string, pieces: string, afterKey: string, t: string)
    requires text == before + s && s != "" && s[0] == '"' && s[1..] == pieces + (afterKey + t) && t != "" && t[0] == ':'
    ensures text == before + "\"" + pieces + afterKey + ":" + t[1..]
  {
    assert s == "\"" + s[1..] && t == ":" + t[1..];
  }

  lemma RegroupTail(a: string, b: string, c: string, d: string, rest: string)
    ensures (a + b + c + d) + rest == a + b + (c + (d + rest))
  {
  }

  lemma RegroupMember(name: string, space: string, value: string, after: string, close: string, rest: string)
    ensures (name + space + value + after + close) + rest == name + (space + value + (after + (close + rest)))
  {
  }

  lemma AddNothing(s: string)
    ensures s + "" == s && "" + s == s
  {
  }

  // ----- soundness: whatever is read is the text of a well-formed tree -----

  lemma WordSound(word: string, s: string)
    requires ParseWord(word, s).Some? && IsWord(word)
    ensures s == Show(ParseWord(word, s).value.0) + ParseWord(word, s).value.1 && WellFormed(ParseWord(word, s).value.0)
  {
    assert s == s[..|word|] + s[|word|..];
  }

  lemma NumberSound(s: string)
    requires s != "" && ParseNumber(s).Some?
    ensures s == Show(ParseNumber(s).value.0) + ParseNumber(s).value.1 && WellFormed(ParseNumber(s).value.0)
  {
    var scan := Scanned(Step(Start, s[0]).value, s[1..]).value;
    assert Scanned(Start, s) == Some(Scan([s[0]] + scan.text, scan.rest));
    ScannedIsNumber(s);
  }

  lemma ScalarSound(s: string)
    requires s != "" && ParseScalar(s).Some?
    ensures var (v, rest) := ParseScalar(s).value; s == Show(v) + rest && WellFormed(v) && !v.Array? && !v.Object?
  {
    hide IsNumber;
    if s[0] == '"' {
      var p := ParsePieces(s[1..]).value;
      assert s == "\"" + (ShowPieces(p.pieces) + p.rest);
      assert s == ("\"" + ShowPieces(p.pieces)) + p.rest;
    } else if s[0] == 't' {
      WordSound("true", s);
    } else if s[0] == 'f' {
      WordSound("false", s);
    } else if s[0] == 'n' {
      WordSound("null", s);
    } else {
      NumberSound(s);
    }
  }

  /** A container read after its opening bracket. */
  ghost predicate Contained(text: string, open: string, v: Json, rest: string, depth: nat)
  {
    open + text == Show(v) + rest && WellFormed(v) && Fits(v, depth)
  }

  lemma {:induction false} ValueSound(text: string, depth: nat)
    requires ParseValue(text, depth).Some?
    ensures var r := ParseValue(text, depth).value;
            text == r.before + Show(r.value) + r.rest && AllSpace(r.before) && WellFormed(r.value) && Fits(r.value, depth)
    decreases |text|, 1
  {
    hide ParseArray, ParseObject, ParseScalar, WellFormed, Show, Fits, AllSpace, SkipSpace, ParseValue;
    var space, s := SkipSpace(text).space, SkipSpace(text).rest;
    var r := ParseValue(text, depth).value;
    ValueKinds(text, depth);
    if s[0] == '{' {
      ObjectSound(s[1..], depth);
      FirstBack(s, '{', "{", Show(r.value) + r.rest);
    } else if s[0] == '[' {
      ArraySound(s[1..], depth);
      FirstBack(s, '[', "[", Show(r.value) + r.rest);
    } else {
      ScalarSound(s);
      ScalarFits(r.value, depth);
    }
    assert s == Show(r.value) + r.rest;
    assert text == space + (Show(r.value) + r.rest);
  }

  lemma FirstBack(s: string, first: char, open: string, shown: string)
    requires s != "" && s[0] == first && open == [first] && open + s[1..] == shown
    ensures s == shown
  {
  }

  lemma ValueKinds(text: string, depth: nat)
    requires ParseValue(text, depth).Some?
    ensures var s, r := SkipSpace(text).rest, ParseValue(text, depth).value;
            && text == SkipSpace(text).space + s && AllSpace(SkipSpace(text).space) && r.before == SkipSpace(text).space
            && s != "" && depth <= MAX_DEPTH
            && (if s[0] == '{' then depth < MAX_DEPTH && ParseObject(s[1..], depth) == Some((r.value, r.rest))
                else if s[0] == '[' then depth < MAX_DEPTH && ParseArray(s[1..], depth) == Some((r.value, r.rest))
                else ParseScalar(s) == Some((r.value, r.rest)))
  {
    hide ParseArray, ParseObject, ParseScalar, AllSpace, SkipSpace;
  }

  lemma ScalarFits(v: Json, depth: nat)
    requires !v.Array? && !v.Object?
    ensures Fits(v, depth) <==> depth <= MAX_DEPTH
  {
  }

  lemma Joined(a: string, b: string, c: string)
    ensures a + b + c == a + (b + c)
  {
  }

  lemma EmptyArray(text: string, space: string, s: string, depth: nat)
    requires text == space + s && AllSpace(space) && s != "" && s[0] == ']' && depth < MAX_DEPTH
    ensures Contained(text, "[", Array(space, []), s[1..], depth)
  {
    NoElements(depth + 1);
    assert s == "]" + s[1..];
    Joined("[", space + "]", s[1..]);
    Joined(space, "]", s[1..]);
  }

  lemma FullArray(text: string, elements: seq<Element>, rest: string, depth: nat)
    requires elements != [] && text == ShowElements(elements) + rest && depth < MAX_DEPTH
    requires ElementsOk(elements) && ElementsFit(elements, depth + 1)
    ensures Contained(text, "[", Array("", elements), rest, depth)
  {
    hide ShowElements, ElementsOk, ElementsFit;
    Joined("[", ShowElements(elements), rest);
  }

  lemma {:induction false} ArraySound(text: string, depth: nat)
    requires ParseArray(text, depth).Some? && depth < MAX_DEPTH
    ensures Contained(text, "[", ParseArray(text, depth).value.0, ParseArray(text, depth).value.1, depth)
    decreases |text|, 3
  {
    hide ParseElements, ShowElements, ElementsOk, ElementsFit, Contained;
    var space, s := SkipSpace(text).space, SkipSpace(text).rest;
    if s != "" && s[0] == ']' {
      EmptyArray(text, space, s, depth);
    } else {
      ElementsSound(text, depth);
      var r := ParseElements(text, depth).value;
      FullArray(text, r.elements, r.rest, depth);
    }
  }

  lemma NoElements(depth: nat)
    ensures ElementsOk([]) && ElementsFit([], depth) && MembersOk([]) && MembersFit([], depth)
  {
  }

  lemma OneElement(e: Element, depth: nat)
    requires AllSpace(e.before) && WellFormed(e.value) && AllSpace(e.after) && Fits(e.value, depth)
    ensures ElementsOk([e]) && ElementsFit([e], depth)
    ensures ShowElements([e]) == e.before + Show(e.value) + e.after + "]"
  {
    NoElements(depth);
    assert [e][1..] == [];
  }

  lemma MoreElements(e: Element, es: seq<Element>, depth: nat)
    requires AllSpace(e.before) && WellFormed(e.value) && AllSpace(e.after) && Fits(e.value, depth)
    requires es != [] && ElementsOk(es) && ElementsFit(es, depth)
    ensures ElementsOk([e] + es) && ElementsFit([e] + es, depth)
    ensures ShowElements([e] + es) == e.before + Show(e.value) + e.after + "," + ShowElements(es)
  {
    assert ([e] + es)[1..] == es;
    hide Show, WellFormed, Fits;
  }

  lemma {:induction false} ElementsSound(text: string, depth: nat)
    requires ParseElements(text, depth).Some?
    ensures var r := ParseElements(text, depth).value;
            text == ShowElements(r.elements) + r.rest && ElementsOk(r.elements) && ElementsFit(r.elements, depth + 1)
    decreases |text|, 2
  {
    hide ParseValue, Show, ShowElements, ElementsOk, ElementsFit, WellFormed, Fits, AllSpace;
    ValueSound(text, depth + 1);
    var read := ParseValue(text, depth + 1).value;
    var after, s := SkipSpace(read.rest).space, SkipSpace(read.rest).rest;
    hide SkipSpace;
    var e := Element(read.before, read.value, after);
    RegroupValue(text, e.before, Show(e.value), e.after, s);
    var shown := e.before + Show(e.value) + e.after;
    if s[0] == ']' {
      OneElement(e, depth + 1);
      AddNothing(s[1..]);
      Regroup(text, shown, s, ']', "", s[1..]);
      AddNothing(shown + "]");
    } else {
      ElementsSound(s[1..], depth);
      var r := ParseElements(s[1..], depth).value;
      MoreElements(e, r.elements, depth + 1);
      Regroup(text, shown, s, ',', ShowElements(r.elements), r.rest);
    }
  }

  lemma EmptyObject(text: string, space: string, s: string, depth: nat)
    requires text == space + s && AllSpace(space) && s != "" && s[0] == '}' && depth < MAX_DEPTH
    ensures Contained(text, "{", Object(space, []), s[1..], depth)
  {
    NoElements(depth + 1);
    assert s == "}" + s[1..];
    Joined("{", space + "}", s[1..]);
    Joined(space, "}", s[1..]);
  }

  lemma FullObject(text: string, members: seq<Member>, rest: string, depth: nat)
    requires members != [] && text == ShowMembers(members) + rest && depth < MAX_DEPTH
    requires MembersOk(members) && MembersFit(members, depth + 1)
    ensures Contained(text, "{", Object("", members), rest, depth)
  {
    hide ShowMembers, MembersOk, MembersFit;
    Joined("{", ShowMembers(members), rest);
  }

  lemma {:induction false} ObjectSound(text: string, depth: nat)
    requires ParseObject(text, depth).Some? && depth < MAX_DEPTH
    ensures Contained(text, "{", ParseObject(text, depth).value.0, ParseObject(text, depth).value.1, depth)
    decreases |text|, 3
  {
    hide ParseMembers, ShowMembers, MembersOk, MembersFit, Contained;
    var space, s := SkipSpace(text).space, SkipSpace(text).rest;
    if s != "" && s[0] == '}' {
      EmptyObject(text, space, s, depth);
    } else {
      MembersSound(text, depth);
      var r := ParseMembers(text, depth).value;
      FullObject(text, r.members, r.rest, depth);
    }
  }

  predicate SpacesOk(m: Member)
  {
    AllSpace(m.before) && PiecesOk(m.key) && AllSpace(m.afterKey) && AllSpace(m.beforeValue) && AllSpace(m.after)
  }

  function ShowName(m: Member): string
  {
    m.before + "\"" + ShowPieces(m.key) + m.afterKey + ":"
  }

  function ShowMember(m: Member): string
  {
    ShowName(m) + m.beforeValue + Show(m.value) + m.after
  }

  lemma OneMember(m: Member, depth: nat)
    requires SpacesOk(m) && WellFormed(m.value) && Fits(m.value, depth)
    ensures MembersOk([m]) && MembersFit([m], depth)
    ensures ShowMembers([m]) == ShowMember(m) + "}"
  {
    NoElements(depth);
    assert [m][1..] == [];
  }

  lemma MoreMembers(m: Member, ms: seq<Member>, depth: nat)
    requires SpacesOk(m) && WellFormed(m.value) && Fits(m.value, depth)
    requires ms != [] && MembersOk(ms) && MembersFit(ms, depth)
    ensures MembersOk([m] + ms) && MembersFit([m] + ms, depth)
    ensures ShowMembers([m] + ms) == ShowMember(m) + "," + ShowMembers(ms)
  {
    assert ([m] + ms)[1..] == ms;
    hide Show, WellFormed, Fits, ShowPieces;
  }

  lemma KeySound(text: string)
    requires ParseKey(text).Some?
    ensures var k := ParseKey(text).value;
            && PiecesOk(k.key) && AllSpace(k.before) && AllSpace(k.afterKey)
            && text == k.before + "\"" + ShowPieces(k.key) + k.afterKey + ":" + k.rest
  {
    hide ShowPieces, PiecesOk, AllSpace, ParsePieces, SkipSpace;
    var before, s := SkipSpace(text).space, SkipSpace(text).rest;
    var key := ParsePieces(s[1..]).value;
    RegroupKey(text, before, s, ShowPieces(key.pieces), SkipSpace(key.rest).space, SkipSpace(key.rest).rest);
  }

  lemma {:induction false} MembersSound(text: string, depth: nat)
    requires ParseMembers(text, depth).Some?
    ensures var r := ParseMembers(text, depth).value;
            text == ShowMembers(r.members) + r.rest && MembersOk(r.members) && MembersFit(r.members, depth + 1)
    decreases |text|, 2
  {
    hide ParseKey, ParseValue, Show, ShowMembers, ShowMember, MembersOk, MembersFit, WellFormed, Fits, ShowPieces, PiecesOk,
         AllSpace, SkipSpace;
    KeySound(text);
    var key := ParseKey(text).value;
    ValueSound(key.rest, depth + 1);
    var read := ParseValue(key.rest, depth + 1).value;
    var after, s := SkipSpace(read.rest).space, SkipSpace(read.rest).rest;
    var m := Member(key.before, key.key, key.afterKey, read.before, read.value, after);
    MemberText(text, m, key.rest, s);
    if s[0] == '}' {
      OneMember(m, depth + 1);
      AddNothing(s[1..]);
      Regroup(text, ShowMember(m), s, '}', "", s[1..]);
      AddNothing(ShowMember(m) + "}");
    } else {
      MembersSound(s[1..], depth);
      var r := ParseMembers(s[1..], depth).value;
      MoreMembers(m, r.members, depth + 1);
      Regroup(text, ShowMember(m), s, ',', ShowMembers(r.members), r.rest);
    }
  }

  lemma MemberText(text: string, m: Member, fromValue: string, rest: string)
    requires text == ShowName(m) + fromValue && fromValue == m.beforeValue + Show(m.value) + (m.after + rest)
    ensures text == ShowMember(m) + rest
  {
    hide Show, ShowName;
  }

  /** Whatever the recogniser's reading accepts is one object text of the grammar, within
      the depth limit. */
  lemma LineSound(line: string)
    requires ParseLine(line).Some?
    ensures IsObjectText(line, ParseLine(line).value)
  {
    hide ParseObject, Show, WellFormed, Fits;
    var before, s := SkipSpace(line).space, SkipSpace(line).rest;
    var (v, rest) := ParseObject(s[1..], 0).value;
    ObjectSound(s[1..], 0);
    ObjectParsed(s[1..], 0);
    assert s == "{" + s[1..];
    assert line == before + Show(v) + SkipSpace(rest).space;
  }

  lemma ObjectParsed(text: string, depth: nat)
    ensures ParseObject(text, depth).Some? ==> ParseObject(text, depth).value.0.Object?
  {
  }

  // ----- completeness: the text of a well-formed tree is read as that tree -----

  /** What may follow a value: anything after most, but no byte of a number after a number. */
  predicate Delimited(v: Json, rest: string)
  {
    v.Number? ==> rest != "" && !NumberByte(rest[0])
  }

  lemma ValueStarts(v: Json)
    requires WellFormed(v)
    ensures Show(v) != "" && !IsSpace(Show(v)[0])
    ensures v.Object? <==> Show(v)[0] == '{'
    ensures v.Array? <==> Show(v)[0] == '['
    ensures v.Text? <==> Show(v)[0] == '"'
    ensures v.Word? ==> Show(v)[0] == v.text[0]
    ensures v.Number? ==> Step(Start, Show(v)[0]).Some?
  {
    if v.Number? {
      AutomatonIsGrammar(v.text);
    }
    hide IsNumber, ShowElements, ShowMembers, ShowPieces;
  }

  lemma TextComplete(pieces: seq<Piece>, rest: string)
    requires PiecesOk(pieces)
    ensures ParseScalar("\"" + ShowPieces(pieces) + rest) == Some((Text(pieces), rest))
  {
    hide ShowPieces, ParsePieces;
    PiecesParsed(pieces, rest);
    assert ("\"" + ShowPieces(pieces) + rest)[1..] == ShowPieces(pieces) + rest;
  }

  lemma WordComplete(word: string, rest: string)
    requires IsWord(word)
    ensures word + rest != "" && ParseScalar(word + rest) == Some((Word(word), rest))
  {
    hide ParsePieces, ParseNumber;
    var s := word + rest;
    assert s[|word|..] == rest && word <= s && s[0] == word[0];
  }

  lemma NumberComplete(text: string, rest: string)
    requires IsNumber(text) && text != "" && Step(Start, text[0]).Some? && rest != "" && !NumberByte(rest[0])
    ensures ParseScalar(text + rest) == Some((Number(text), rest))
  {
    hide ParseScalar, ParseNumber, Scanned, IsNumber, Step;
    NumberIsScanned(text, rest);
    assert (text + rest)[0] == text[0];
    NumberStarts(text + rest);
  }

  lemma ScalarComplete(v: Json, rest: string)
    requires WellFormed(v) && !v.Array? && !v.Object? && Delimited(v, rest)
    ensures Show(v) + rest != "" && ParseScalar(Show(v) + rest) == Some((v, rest))
  {
    hide ParseScalar, ShowPieces, IsNumber, Step, PiecesOk, IsWord;
    ValueStarts(v);
    match v
    case Text(pieces) => TextComplete(pieces, rest);
    case Word(word) => WordComplete(word, rest);
    case Number(text) => NumberComplete(text, rest);
  }

  lemma NumberStarts(s: string)
    requires s != "" && Scanned(Start, s).Some? && Step(Start, s[0]).Some?
    ensures ParseNumber(s) == Some((Number(Scanned(Start, s).value.text), Scanned(Start, s).value.rest))
    ensures ParseScalar(s) == ParseNumber(s)
  {
  }

  /** A value read without the space before it is read with it. */
  lemma ValueAfterSpace(before: string, s: string, v: Json, rest: string, depth: nat)
    requires AllSpace(before) && s != "" && !IsSpace(s[0]) && depth <= MAX_DEPTH
    requires if s[0] == '{' then depth < MAX_DEPTH && ParseObject(s[1..], depth) == Some((v, rest))
             else if s[0] == '[' then depth < MAX_DEPTH && ParseArray(s[1..], depth) == Some((v, rest))
             else ParseScalar(s) == Some((v, rest))
    ensures ParseValue(before + s, depth) == Some(Read(before, v, rest))
  {
    hide ParseObject, ParseArray, ParseScalar, SkipSpace, AllSpace;
    SpaceSkipped(before, s);
  }

  lemma ValueDepth(v: Json, depth: nat)
    requires Fits(v, depth)
    ensures depth <= MAX_DEPTH && (v.Object? || v.Array? ==> depth < MAX_DEPTH)
  {
  }

  lemma {:induction false} ValueComplete(before: string, v: Json, rest: string, depth: nat)
    requires AllSpace(before) && WellFormed(v) && Fits(v, depth) && Delimited(v, rest)
    ensures ParseValue(before + Show(v) + rest, depth) == Some(Read(before, v, rest))
    decreases v, 3
  {
    hide Show, WellFormed, Fits, ParseValue, ParseObject, ParseArray, ParseScalar, AllSpace, Delimited;
    var s := Show(v) + rest;
    ValueStarts(v);
    ValueDepth(v, depth);
    assert before + Show(v) + rest == before + s && s[0] == Show(v)[0];
    assert s[1..] == Show(v)[1..] + rest;
    if v.Object? {
      ObjectComplete(v, rest, depth);
    } else if v.Array? {
      ArrayComplete(v, rest, depth);
    } else {
      ScalarComplete(v, rest);
    }
    ValueAfterSpace(before, s, v, rest, depth);
  }

  lemma {:induction false} ArrayComplete(v: Json, rest: string, depth: nat)
    requires v.Array? && WellFormed(v) && Fits(v, depth)
    ensures ParseArray(Show(v)[1..] + rest, depth) == Some((v, rest))
    decreases v, 2
  {
    hide ParseElements, ElementsOk, ElementsFit, ShowElements;
    var text := Show(v)[1..] + rest;
    if v.elements == [] {
      assert text == v.space + ("]" + rest);
      SpaceSkipped(v.space, "]" + rest);
      assert ("]" + rest)[1..] == rest;
    } else {
      assert text == ShowElements(v.elements) + rest;
      ElementsComplete(v.elements, rest, depth);
      ElementsStart(v.elements, rest);
    }
  }

  lemma ElementsStart(es: seq<Element>, rest: string)
    requires es != [] && ElementsOk(es)
    ensures var s := SkipSpace(ShowElements(es) + rest).rest; s != "" && s[0] != ']'
  {
    var text := ShowElements(es) + rest;
    ValueStarts(es[0].value);
    hide Show, WellFormed, ElementsOk;
    var tail := es[0].after + (if |es| == 1 then "]" else "," + ShowElements(es[1..])) + rest;
    assert text == es[0].before + (Show(es[0].value) + tail);
    SpaceSkipped(es[0].before, Show(es[0].value) + tail);
    ValueNotBracket(es[0].value);
  }

  lemma ValueNotBracket(v: Json)
    requires Show(v) != "" && WellFormed(v)
    ensures Show(v)[0] != ']' && Show(v)[0] != '}' && Show(v)[0] != ',' && Show(v)[0] != ':'
  {
    ValueStarts(v);
  }

  lemma {:induction false} ElementsComplete(es: seq<Element>, rest: string, depth: nat)
    requires es != [] && ElementsOk(es) && ElementsFit(es, depth + 1)
    ensures ParseElements(ShowElements(es) + rest, depth) == Some(ReadElements(es, rest))
    decreases es, 2
  {
    var e := es[0];
    var tail := ElementsTail(es, rest);
    ElementsText(es, rest);
    assert Delimited(e.value, e.after + tail) by { TailDelimits(e.after, tail); }
    ElementParts(es, depth);
    ValueComplete(e.before, e.value, e.after + tail, depth + 1);
    SpaceSkipped(e.after, tail);
    if |es| > 1 {
      ElementsComplete(es[1..], rest, depth);
    }
    ElementsRead(es, rest, depth);
  }

  function ElementsClose(es: seq<Element>): string
    requires es != []
  {
    if |es| == 1 then "]" else "," + ShowElements(es[1..])
  }

  function ElementsTail(es: seq<Element>, rest: string): string
    requires es != []
  {
    ElementsClose(es) + rest
  }

  lemma ElementsUnfold(es: seq<Element>)
    requires es != []
    ensures ShowElements(es) == es[0].before + Show(es[0].value) + es[0].after + ElementsClose(es)
  {
    hide Show;
  }

  lemma ElementsTailStarts(es: seq<Element>, rest: string)
    requires es != []
    ensures var tail := ElementsTail(es, rest); tail != "" && (tail[0] == ',' || tail[0] == ']')
    ensures ElementsTail(es, rest)[0] == if |es| == 1 then ']' else ','
    ensures ElementsTail(es, rest)[1..] == if |es| == 1 then rest else ShowElements(es[1..]) + rest
  {
    hide ShowElements;
    if |es| > 1 {
      assert ElementsTail(es, rest)[1..] == ShowElements(es[1..]) + rest;
    } else {
      assert ElementsTail(es, rest)[1..] == rest;
    }
  }

  lemma ElementsTailIs(es: seq<Element>, rest: string)
    requires es != []
    ensures ElementsTail(es, rest) == ElementsClose(es) + rest
  {
    hide ElementsClose;
  }

  lemma ElementsText(es: seq<Element>, rest: string)
    requires es != []
    ensures ShowElements(es) + rest == es[0].before + Show(es[0].value) + (es[0].after + ElementsTail(es, rest))
    ensures var tail := ElementsTail(es, rest); tail != "" && (tail[0] == ',' || tail[0] == ']')
  {
    hide *;
    ElementsUnfold(es);
    ElementsTailStarts(es, rest);
    ElementsTailIs(es, rest);
    RegroupTail(es[0].before, Show(es[0].value), es[0].after, ElementsClose(es), rest);
  }

  lemma ElementParts(es: seq<Element>, depth: nat)
    requires es != [] && ElementsOk(es) && ElementsFit(es, depth + 1)
    ensures AllSpace(es[0].before) && WellFormed(es[0].value) && AllSpace(es[0].after) && Fits(es[0].value, depth + 1)
    ensures ElementsOk(es[1..]) && ElementsFit(es[1..], depth + 1)
  {
  }

  lemma ElementsRead(es: seq<Element>, rest: string, depth: nat)
    requires es != []
    requires var e, tail := es[0], ElementsTail(es, rest);
             && ParseValue(ShowElements(es) + rest, depth + 1) == Some(Read(e.before, e.value, e.after + tail))
             && SkipSpace(e.after + tail) == Spaced(e.after, tail)
    requires |es| > 1 ==> ParseElements(ShowElements(es[1..]) + rest, depth) == Some(ReadElements(es[1..], rest))
    ensures ParseElements(ShowElements(es) + rest, depth) == Some(ReadElements(es, rest))
  {
    hide ParseValue, SkipSpace, ShowElements, ElementsTail;
    var e := es[0];
    ElementsTailStarts(es, rest);
    assert Element(e.before, e.value, e.after) == e;
    assert if |es| == 1 then [e] == es else [e] + es[1..] == es;
  }

  lemma TailDelimits(after: string, tail: string)
    requires AllSpace(after) && tail != "" && (tail[0] == ',' || tail[0] == ']' || tail[0] == '}')
    ensures after + tail != "" && !NumberByte((after + tail)[0]) && !IsSpace(tail[0])
  {
    assert (after + tail)[0] == if after == "" then tail[0] else after[0];
  }

  lemma {:induction false} ObjectComplete(v: Json, rest: string, depth: nat)
    requires v.Object? && WellFormed(v) && Fits(v, depth)
    ensures ParseObject(Show(v)[1..] + rest, depth) == Some((v, rest))
    decreases v, 2
  {
    hide ParseMembers, MembersOk, MembersFit, ShowMembers;
    var text := Show(v)[1..] + rest;
    if v.members == [] {
      assert text == v.space + ("}" + rest);
      SpaceSkipped(v.space, "}" + rest);
      assert ("}" + rest)[1..] == rest;
    } else {
      assert text == ShowMembers(v.members) + rest;
      MembersComplete(v.members, rest, depth);
      MembersStart(v.members, rest);
    }
  }

  lemma MembersStart(ms: seq<Member>, rest: string)
    requires ms != [] && MembersOk(ms)
    ensures var s := SkipSpace(ShowMembers(ms) + rest).rest; s != "" && s[0] == '"'
  {
    hide Show, WellFormed, ShowPieces, ShowMembers, ShowName, MembersOk, SkipSpace;
    var m := ms[0];
    FirstMemberSpace(ms);
    MembersText(ms, rest);
    var fromValue := m.beforeValue + Show(m.value) + (m.after + MembersTail(ms, rest));
    NameText(m, fromValue);
    SpaceSkipped(m.before, "\"" + (ShowPieces(m.key) + (m.afterKey + (":" + fromValue))));
  }

  lemma FirstMemberSpace(ms: seq<Member>)
    requires ms != [] && MembersOk(ms)
    ensures AllSpace(ms[0].before)
  {
  }

  lemma KeyComplete(m: Member, rest: string)
    requires SpacesOk(m)
    ensures ParseKey(ShowName(m) + rest) == Some(ReadKey(m.before, m.key, m.afterKey, rest))
  {
    var afterKey := m.afterKey + (":" + rest);
    var fromKey := ShowPieces(m.key) + afterKey;
    NameText(m, rest);
    SpaceSkipped(m.before, "\"" + fromKey);
    PiecesParsed(m.key, afterKey);
    SpaceSkipped(m.afterKey, ":" + rest);
    KeyRead(m, rest);
  }

  lemma NameText(m: Member, rest: string)
    ensures ShowName(m) + rest == m.before + ("\"" + (ShowPieces(m.key) + (m.afterKey + (":" + rest))))
  {
    hide ShowPieces;
  }

  lemma KeyRead(m: Member, rest: string)
    requires var afterKey := m.afterKey + (":" + rest);
             && ShowName(m) + rest == m.before + ("\"" + (ShowPieces(m.key) + afterKey))
             && SkipSpace(m.before + ("\"" + (ShowPieces(m.key) + afterKey))) == Spaced(m.before, "\"" + (ShowPieces(m.key) + afterKey))
             && ParsePieces(ShowPieces(m.key) + afterKey) == Some(ReadPieces(m.key, afterKey))
             && SkipSpace(afterKey) == Spaced(m.afterKey, ":" + rest)
    ensures ParseKey(ShowName(m) + rest) == Some(ReadKey(m.before, m.key, m.afterKey, rest))
  {
    hide ShowPieces, ParsePieces, SkipSpace, ShowName;
    assert ("\"" + (ShowPieces(m.key) + (m.afterKey + (":" + rest))))[1..] == ShowPieces(m.key) + (m.afterKey + (":" + rest));
    assert (":" + rest)[1..] == rest;
  }

  lemma {:induction false} MembersComplete(ms: seq<Member>, rest: string, depth: nat)
    requires ms != [] && MembersOk(ms) && MembersFit(ms, depth + 1)
    ensures ParseMembers(ShowMembers(ms) + rest, depth) == Some(ReadMembers(ms, rest))
    decreases ms, 2
  {
    hide Show, WellFormed, Fits, ShowMembers, MembersOk, MembersFit, ShowName, ParseMembers, ParseKey, ParseValue, ShowPieces;
    var m := ms[0];
    var tail := MembersTail(ms, rest);
    MembersText(ms, rest);
    MemberParts(ms, depth);
    KeyComplete(m, m.beforeValue + Show(m.value) + (m.after + tail));
    assert Delimited(m.value, m.after + tail) by { TailDelimits(m.after, tail); }
    ValueComplete(m.beforeValue, m.value, m.after + tail, depth + 1);
    SpaceSkipped(m.after, tail);
    if |ms| > 1 {
      MembersComplete(ms[1..], rest, depth);
    }
    MembersRead(ms, rest, depth);
  }

  function MembersClose(ms: seq<Member>): string
    requires ms != []
  {
    if |ms| == 1 then "}" else "," + ShowMembers(ms[1..])
  }

  function MembersTail(ms: seq<Member>, rest: string): string
    requires ms != []
  {
    MembersClose(ms) + rest
  }

  lemma MembersUnfold(ms: seq<Member>)
    requires ms != []
    ensures ShowMembers(ms) == ShowName(ms[0]) + ms[0].beforeValue + Show(ms[0].value) + ms[0].after + MembersClose(ms)
  {
    hide Show, ShowPieces;
  }

  lemma MembersTailStarts(ms: seq<Member>, rest: string)
    requires ms != []
    ensures var tail := MembersTail(ms, rest); tail != "" && tail[0] == if |ms| == 1 then '}' else ','
    ensures MembersTail(ms, rest)[1..] == if |ms| == 1 then rest else ShowMembers(ms[1..]) + rest
  {
    hide ShowMembers;
    if |ms| > 1 {
      assert MembersTail(ms, rest)[1..] == ShowMembers(ms[1..]) + rest;
    } else {
      assert MembersTail(ms, rest)[1..] == rest;
    }
  }

  lemma MembersTailIs(ms: seq<Member>, rest: string)
    requires ms != []
    ensures MembersTail(ms, rest) == MembersClose(ms) + rest
  {
    hide MembersClose;
  }

  lemma MembersText(ms: seq<Member>, rest: string)
    requires ms != []
    ensures var m := ms[0];
            ShowMembers(ms) + rest == ShowName(m) + (m.beforeValue + Show(m.value) + (m.after + MembersTail(ms, rest)))
    ensures var tail := MembersTail(ms, rest); tail != "" && (tail[0] == ',' || tail[0] == '}')
  {
    hide *;
    MembersUnfold(ms);
    MembersTailStarts(ms, rest);
    MembersTailIs(ms, rest);
    RegroupMember(ShowName(ms[0]), ms[0].beforeValue, Show(ms[0].value), ms[0].after, MembersClose(ms), rest);
  }

  lemma MemberParts(ms: seq<Member>, depth: nat)
    requires ms != [] && MembersOk(ms) && MembersFit(ms, depth + 1)
    ensures SpacesOk(ms[0]) && WellFormed(ms[0].value) && Fits(ms[0].value, depth + 1)
    ensures MembersOk(ms[1..]) && MembersFit(ms[1..], depth + 1)
  {
  }

  lemma MembersRead(ms: seq<Member>, rest: string, depth: nat)
    requires ms != []
    requires var m, tail := ms[0], MembersTail(ms, rest);
             var fromValue := m.beforeValue + Show(m.value) + (m.after + tail);
             && ParseKey(ShowMembers(ms) + rest) == Some(ReadKey(m.before, m.key, m.afterKey, fromValue))
             && ParseValue(fromValue, depth + 1) == Some(Read(m.beforeValue, m.value, m.after + tail))
             && SkipSpace(m.after + tail) == Spaced(m.after, tail)
    requires |ms| > 1 ==> ParseMembers(ShowMembers(ms[1..]) + rest, depth) == Some(ReadMembers(ms[1..], rest))
    ensures ParseMembers(ShowMembers(ms) + rest, depth) == Some(ReadMembers(ms, rest))
  {
    hide ParseValue, ParseKey, SkipSpace, ShowMembers, Show, MembersTail;
    var m := ms[0];
    MembersTailStarts(ms, rest);
    assert Member(m.before, m.key, m.afterKey, m.beforeValue, m.value, m.after) == m;
    assert if |ms| == 1 then [m] == ms else [m] + ms[1..] == ms;
  }

  /** Every object text of the grammar within the depth limit is accepted, as its tree. */
  lemma LineComplete(line: string, v: Json)
    requires IsObjectText(line, v)
    ensures ParseLine(line) == Some(v)
  {
    hide ParseObject, WellFormed, Fits, Show, AllSpace, SkipSpace;
    var before: string, after: string :| AllSpace(before) && AllSpace(after) && line == before + Show(v) + after;
    var s := Show(v) + after;
    ValueStarts(v);
    assert line == before + s && s[0] == Show(v)[0];
    SpaceSkipped(before, s);
    ObjectComplete(v, after, 0);
    assert s[1..] == Show(v)[1..] + after;
    AddNothing(after);
    SpaceSkipped(after, "");
  }

  /** The reading accepts exactly the lines that are one object text, and reads each of
      them as the one tree it is the text of. */
  lemma ReadingIsGrammar(line: string, v: Json)
    ensures ParseLine(line) == Some(v) <==> IsObjectText(line, v)
  {
    if ParseLine(line) == Some(v) {
      LineSound(line);
    }
    if IsObjectText(line, v) {
      LineComplete(line, v);
    }
  }
}
