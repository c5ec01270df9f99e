/** The one place where capturing a growing log differs from capturing it at once: a last
    record of exactly the line limit. */
module CaptureBoundary {
  import opened Basics
  import opened Candidates
  import opened JsonGrammar
  import opened JsonTheorems
  import opened Discriminators
  import opened LineReader
  import opened Capture
  import opened CaptureRuns

  predicate PlainAscii(s: string)
  {
    forall i :: 0 <= i < |s| ==> ' ' <= s[i] < 128 as char && s[i] != '"' && s[i] != '\\'
  }

  function Spell(s: string): (ps: seq<Piece>)
    ensures |ps| == |s| && forall i :: 0 <= i < |s| ==> ps[i] == Plain(s[i])
  {
    seq(|s|, i requires 0 <= i < |s| => Plain(s[i]))
  }

  lemma {:induction false} SpellShown(s: string)
    ensures ShowPieces(Spell(s)) == s + "\""
  {
    if s != "" {
      SpellShown(s[1..]);
      assert Spell(s)[1..] == Spell(s[1..]);
      assert s == [s[0]] + s[1..];
    }
  }

  lemma SpellDecoded(s: string)
    requires PlainAscii(s)
    ensures PiecesOk(Spell(s)) && Decoded(Spell(s)) == Ascii(s)
  {
  }

  /** The header of a Pi session. */
  function Header(): Json
  {
    Object("", [HeaderMember()])
  }

  function HeaderMember(): Member
  {
    Member("", Spell("type"), "", "", Text(Spell("session")), "")
  }

  lemma SpellIsShort(s: string)
    requires NoNewline(s) && |s| <= 10
    ensures |"\"" + ShowPieces(Spell(s))| <= 12 && NoNewline("\"" + ShowPieces(Spell(s)))
  {
    SpellShown(s);
    hide ShowPieces, Spell;
  }

  lemma HeaderShown()
    ensures Show(Header()) ==
            "{" + ("" + "\"" + ShowPieces(Spell("type")) + "" + ":" + "" + ("\"" + ShowPieces(Spell("session"))) + "" + "}")
  {
    hide ShowPieces, Spell;
    assert [HeaderMember()][1..] == [];
  }

  lemma ShortText(name: string, value: string)
    requires NoNewline(name) && NoNewline(value) && |name| <= 12 && |value| <= 12
    ensures var text := "{" + (name + ":" + value + "}"); |text| <= 30 && NoNewline(text)
  {
  }

  lemma HeaderText()
    ensures |Show(Header())| <= MAX_LINE_BYTES && NoNewline(Show(Header()))
  {
    hide ShowPieces, Spell, Show, Header, NoNewline;
    NamesHaveNoNewline();
    SpellIsShort("type");
    SpellIsShort("session");
    HeaderShown();
    var name, value := "\"" + ShowPieces(Spell("type")), "\"" + ShowPieces(Spell("session"));
    ShortText(name, value);
    Regrouped(ShowPieces(Spell("type")), value);
  }

  lemma NamesHaveNoNewline()
    ensures NoNewline("type") && NoNewline("session")
  {
  }

  lemma Regrouped(name: string, value: string)
    ensures "{" + ("" + "\"" + name + "" + ":" + "" + value + "" + "}") == "{" + (("\"" + name) + ":" + value + "}")
  {
  }

  lemma HeaderIsWellFormed()
    ensures WellFormed(Header()) && Fits(Header(), 0) && MembersOk([HeaderMember()])
  {
    SpellDecoded("type");
    SpellDecoded("session");
    OneMember(HeaderMember(), 1);
  }

  lemma HeaderIsSession()
    ensures WellFormed(Header()) && FullStrings(Header()).kind == Ascii("session")
  {
    HeaderIsWellFormed();
    SpellDecoded("type");
    SpellDecoded("session");
    var m := HeaderMember();
    assert [m] + [] == [m];
    LastOf(m, [], Ascii("type"));
    hide Decoded, Ascii, Spell;
  }

  function Spaces(n: nat): (s: string)
    ensures |s| == n && AllSpace(s) && NoNewline(s)
  {
    seq(n, _ => ' ')
  }

  lemma PaddedHeader() returns (t: string)
    ensures |t| == MAX_LINE_BYTES && NoNewline(t) && ParseLine(t) == Some(Header())
  {
    HeaderText();
    HeaderIsWellFormed();
    hide ParseLine, Fits, WellFormed, Show;
    var core := Show(Header());
    var pad := Spaces(MAX_LINE_BYTES - |core|);
    t := core + pad;
    assert t == "" + Show(Header()) + pad && AllSpace("");
    assert IsObjectText(t, Header());
    LineComplete(t, Header());
  }

  /** Cleaning that blanks nothing. */
  ghost function Faithful(): Env
  {
    Env(Pi, (v: Json) => Clean(if v.Object? && WellFormed(v) then FullStrings(v) else Strings([], [], []), "", ""), _ => false, d => d)
  }

  lemma FaithfulCleans()
    ensures CleansStrings(Faithful())
  {
    hide FullStrings, WellFormed;
  }

  /** A log whose only line is a complete session header of exactly the limit is captured;
      once its newline arrives every parse of it fails, from the checkpoint and from the
      beginning alike, so no full parse ever records what was recorded before. */
  lemma BoundaryRecordIsLost() returns (env: Env, file: string)
    ensures CleansStrings(env)
    ensures var start := Beginning("source", "lineage");
            && ScanFrom(env, file, start).Ok? && ScanFrom(env, file, start).value.tail.Some?
            && ScanFrom(env, file + "\n", start) == Err(0)
  {
    hide StepLine, ParseLine, Extracted, Skippable, FullStrings, Header, NoNewline, CleansStrings, Faithful, ScanFrom;
    env := Faithful();
    file := PaddedHeader();
    FaithfulCleans();
    var start := Beginning("source", "lineage");
    assert file[0..] == file;
    EndedTail(env, file, start, file);
    HeaderObserved(start, file);
    HeaderNotSkippable(file);
    ScanFails(env, file + "\n", start);
    ScanTail(env, file, start);
  }

  lemma ScanTail(env: Env, file: string, c: Cursor)
    requires c.offset <= |file| && StepLine(env, file, c).Stopped?
    ensures ScanFrom(env, file, c).Ok? && ScanFrom(env, file, c).value.tail == StepLine(env, file, c).tail
  {
    hide StepLine;
  }

  lemma HeaderObserved(c: Cursor, t: string)
    requires ParseLine(t) == Some(Header())
    ensures Extracted(Faithful(), c, t).1.Some?
  {
    hide ParseLine, FullStrings, WellFormed, Before, Without, Ascii;
    HeaderIsSession();
    assert Sanitised(Faithful(), t) == Some(Clean(FullStrings(Header()), "", ""));
  }

  lemma HeaderNotSkippable(t: string)
    requires ParseLine(t) == Some(Header())
    ensures !Skippable(Faithful().harness, t + "\n")
  {
    HeaderIsSession();
    ParseEnded(t);
    if Skippable(Pi, t + "\n") {
      ReadingIsGrammar(t + "\n", Header());
      SkippingIsSound(Pi, Header(), FullStrings(Header()));
    }
    hide ParseLine, FullStrings, WellFormed, Header, NoteMembers, Irrelevant, Ascii;
  }
}
