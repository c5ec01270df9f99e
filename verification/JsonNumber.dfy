/** The number grammar of section 6 of RFC 8259, and the finite automaton that
    recognises it one byte at a time without retaining anything. */
module JsonNumber {
  import opened Basics

  predicate IsDigit(c: char)
  {
    '0' <= c <= '9'
  }

  predicate AllDigits(s: string)
  {
    forall i :: 0 <= i < |s| ==> IsDigit(s[i])
  }

  // ----- the grammar -----

  /** int = zero / ( digit1-9 *DIGIT ) */
  predicate IntPart(s: string)
  {
    s == "0" || (s != "" && '1' <= s[0] <= '9' && AllDigits(s[1..]))
  }

  /** frac = decimal-point 1*DIGIT, or nothing */
  predicate FracPart(s: string)
  {
    s == "" || (s[0] == '.' && |s| > 1 && AllDigits(s[1..]))
  }

  predicate Exponent(s: string)
  {
    s != "" && AllDigits(s)
  }

  /** exp = e [ minus / plus ] 1*DIGIT, or nothing */
  predicate ExpPart(s: string)
  {
    s == "" || ((s[0] == 'e' || s[0] == 'E') && |s| > 1 &&
                (Exponent(s[1..]) || ((s[1] == '+' || s[1] == '-') && Exponent(s[2..]))))
  }

  /** number = [ minus ] int [ frac ] [ exp ] */
  ghost predicate IsNumber(s: string)
  {
    exists minus: string, i: string, f: string, e: string ::
      s == minus + i + f + e && (minus == "" || minus == "-") && IntPart(i) && FracPart(f) && ExpPart(e)
  }

  // ----- the automaton -----

  /** Start is the position before the first byte; the others carry the numbers the
      recogniser uses for them. */
  datatype State = Start | Minus0 | Zero2 | Int3 | Point4 | Frac5 | Mark6 | Sign7 | Exp8

  predicate Final(q: State)
  {
    q == Zero2 || q == Int3 || q == Frac5 || q == Exp8
  }

  function Step(q: State, b: char): Option<State>
  {
    match q
    case Start => if b == '0' then Some(Zero2) else if '1' <= b <= '9' then Some(Int3) else if b == '-' then Some(Minus0) else None
    case Minus0 => if b == '0' then Some(Zero2) else if '1' <= b <= '9' then Some(Int3) else None
    case Zero2 => if b == '.' then Some(Point4) else if b == 'e' || b == 'E' then Some(Mark6) else None
    case Int3 =>
      if IsDigit(b) then Some(Int3) else if b == '.' then Some(Point4) else if b == 'e' || b == 'E' then Some(Mark6) else None
    case Point4 => if IsDigit(b) then Some(Frac5) else None
    case Frac5 => if IsDigit(b) then Some(Frac5) else if b == 'e' || b == 'E' then Some(Mark6) else None
    case Mark6 => if b == '+' || b == '-' then Some(Sign7) else if IsDigit(b) then Some(Exp8) else None
    case Sign7 => if IsDigit(b) then Some(Exp8) else None
    case Exp8 => if IsDigit(b) then Some(Exp8) else None
  }

  function After(q: State, s: string): Option<State>
    decreases s
  {
    if s == "" then Some(q)
    else
      match Step(q, s[0])
      case None => None
      case Some(next) => After(next, s[1..])
  }

  predicate Accepts(q: State, s: string)
  {
    After(q, s).Some? && Final(After(q, s).value)
  }

  // ----- the automaton recognises the grammar -----

  lemma {:induction false} ExpDigits(s: string)
    ensures Accepts(Exp8, s) <==> AllDigits(s)
  {
    if s != "" {
      ExpDigits(s[1..]);
    }
  }

  lemma AfterSign(s: string)
    ensures Accepts(Sign7, s) <==> Exponent(s)
  {
    if s != "" {
      ExpDigits(s[1..]);
    }
  }

  lemma AfterMark(s: string)
    ensures Accepts(Mark6, s) <==> Exponent(s) || (s != "" && (s[0] == '+' || s[0] == '-') && Exponent(s[1..]))
  {
    if s != "" {
      ExpDigits(s[1..]);
      AfterSign(s[1..]);
    }
  }

  predicate MarksExponent(s: string)
  {
    s != "" && (s[0] == 'e' || s[0] == 'E')
  }

  lemma MarkedExponent(s: string)
    requires MarksExponent(s)
    ensures Accepts(Mark6, s[1..]) <==> ExpPart(s)
  {
    AfterMark(s[1..]);
    if |s| > 1 {
      assert s[1..][1..] == s[2..];
    }
  }

  /** Digits, then possibly an exponent. */
  ghost predicate DigitsExp(s: string)
  {
    exists d: string, e: string :: s == d + e && AllDigits(d) && ExpPart(e)
  }

  lemma DigitExtendsExp(s: string)
    requires s != "" && IsDigit(s[0])
    ensures DigitsExp(s[1..]) <==> DigitsExp(s)
  {
    if DigitsExp(s[1..]) {
      var d: string, e: string :| s[1..] == d + e && AllDigits(d) && ExpPart(e);
      assert s == ([s[0]] + d) + e && AllDigits([s[0]] + d);
    }
    if DigitsExp(s) {
      var d: string, e: string :| s == d + e && AllDigits(d) && ExpPart(e);
      assert d != "";
      assert s[1..] == d[1..] + e && AllDigits(d[1..]);
    }
  }

  lemma NoDigitIsExp(s: string)
    requires s == "" || !IsDigit(s[0])
    ensures DigitsExp(s) <==> ExpPart(s)
  {
    if ExpPart(s) {
      assert s == "" + s && AllDigits("");
    }
    if DigitsExp(s) {
      var d: string, e: string :| s == d + e && AllDigits(d) && ExpPart(e);
      assert d == "" && e == s;
    }
  }

  lemma {:induction false} InFraction(s: string)
    ensures Accepts(Frac5, s) <==> DigitsExp(s)
  {
    hide DigitsExp;
    if s != "" && IsDigit(s[0]) {
      InFraction(s[1..]);
      DigitExtendsExp(s);
    } else {
      NoDigitIsExp(s);
      if MarksExponent(s) {
        MarkedExponent(s);
      }
    }
  }

  lemma AfterPoint(s: string)
    ensures Accepts(Point4, s) <==> s != "" && IsDigit(s[0]) && DigitsExp(s[1..])
  {
    if s != "" {
      InFraction(s[1..]);
    }
  }

  /** What may follow the integer part. */
  ghost predicate Tail(s: string)
  {
    exists f: string, e: string :: s == f + e && FracPart(f) && ExpPart(e)
  }

  lemma PointedTail(s: string)
    requires s != "" && s[0] == '.'
    ensures Accepts(Point4, s[1..]) <==> Tail(s)
  {
    AfterPoint(s[1..]);
    if Accepts(Point4, s[1..]) {
      var d: string, e: string :| s[2..] == d + e && AllDigits(d) && ExpPart(e);
      assert s[1..][1..] == s[2..];
      assert s == ("." + [s[1]] + d) + e;
      assert FracPart("." + [s[1]] + d);
    }
    if Tail(s) {
      var f: string, e: string :| s == f + e && FracPart(f) && ExpPart(e);
      assert f != "";
      assert s[1..][1..] == f[2..] + e && AllDigits(f[2..]);
      assert s[1] == f[1];
    }
  }

  lemma UnpointedTail(s: string)
    requires s == "" || s[0] != '.'
    ensures Tail(s) <==> ExpPart(s)
  {
    if ExpPart(s) {
      assert s == "" + s && FracPart("");
    }
    if Tail(s) {
      var f: string, e: string :| s == f + e && FracPart(f) && ExpPart(e);
      assert f == "" && e == s;
    }
  }

  lemma AfterZero(s: string)
    ensures Accepts(Zero2, s) <==> Tail(s)
  {
    if s != "" && s[0] == '.' {
      PointedTail(s);
    } else {
      UnpointedTail(s);
      if MarksExponent(s) {
        MarkedExponent(s);
      }
    }
  }

  ghost predicate DigitsTail(s: string)
  {
    exists d: string, t: string :: s == d + t && AllDigits(d) && Tail(t)
  }

  lemma TailStartsOtherwise(s: string)
    requires s != "" && Tail(s)
    ensures !IsDigit(s[0])
  {
    var f: string, e: string :| s == f + e && FracPart(f) && ExpPart(e);
    if f == "" {
      assert s == e;
    }
  }

  lemma DigitExtendsTail(s: string)
    requires s != "" && IsDigit(s[0])
    ensures DigitsTail(s[1..]) <==> DigitsTail(s)
  {
    if DigitsTail(s[1..]) {
      var d: string, t: string :| s[1..] == d + t && AllDigits(d) && Tail(t);
      hide Tail;
      assert s == ([s[0]] + d) + t && AllDigits([s[0]] + d);
    }
    if DigitsTail(s) {
      DigitLeavesTail(s);
    }
  }

  lemma DigitLeavesTail(s: string)
    requires s != "" && IsDigit(s[0]) && DigitsTail(s)
    ensures DigitsTail(s[1..])
  {
    hide Tail;
    var d: string, t: string :| s == d + t && AllDigits(d) && Tail(t);
    if t != "" {
      TailStartsOtherwise(t);
    }
    assert d != "";
    assert s[1..] == d[1..] + t && AllDigits(d[1..]);
  }

  lemma NoDigitIsTail(s: string)
    requires s == "" || !IsDigit(s[0])
    ensures DigitsTail(s) <==> Tail(s)
  {
    hide Tail;
    if Tail(s) {
      assert s == "" + s && AllDigits("");
    }
    if DigitsTail(s) {
      var d: string, t: string :| s == d + t && AllDigits(d) && Tail(t);
      assert d == "" && t == s;
    }
  }

  lemma {:induction false} InInteger(s: string)
    ensures Accepts(Int3, s) <==> DigitsTail(s)
  {
    hide DigitsTail;
    if s != "" && IsDigit(s[0]) {
      InInteger(s[1..]);
      DigitExtendsTail(s);
    } else {
      AfterZero(s);
      NoDigitIsTail(s);
      SameAfterInteger(s);
    }
  }

  lemma SameAfterInteger(s: string)
    requires s == "" || !IsDigit(s[0])
    ensures Accepts(Int3, s) <==> Accepts(Zero2, s)
  {
  }

  ghost predicate Unsigned(s: string)
  {
    exists i: string, t: string :: s == i + t && IntPart(i) && Tail(t)
  }

  lemma ZeroIsUnsigned(s: string)
    requires s != "" && s[0] == '0'
    ensures Unsigned(s) <==> Tail(s[1..])
  {
    hide Tail;
    if Tail(s[1..]) {
      assert s == "0" + s[1..] && IntPart("0");
    }
    if Unsigned(s) {
      var i: string, t: string :| s == i + t && IntPart(i) && Tail(t);
      assert i[0] == s[0];
      assert s[1..] == t;
    }
  }

  lemma DigitsAreUnsigned(s: string)
    requires s != "" && '1' <= s[0] <= '9'
    ensures Unsigned(s) <==> DigitsTail(s[1..])
  {
    hide Tail;
    if DigitsTail(s[1..]) {
      var d: string, t: string :| s[1..] == d + t && AllDigits(d) && Tail(t);
      assert s == ([s[0]] + d) + t;
      assert ([s[0]] + d)[1..] == d && IntPart([s[0]] + d);
    }
    if Unsigned(s) {
      var i: string, t: string :| s == i + t && IntPart(i) && Tail(t);
      assert i[0] == s[0];
      assert s[1..] == i[1..] + t;
    }
  }

  lemma NothingUnsigned(s: string)
    requires s == "" || !IsDigit(s[0])
    ensures !Unsigned(s)
  {
    hide Tail;
  }

  lemma AfterMinus(s: string)
    ensures Accepts(Minus0, s) <==> Unsigned(s)
  {
    hide Tail, DigitsTail, Unsigned;
    if s != "" && s[0] == '0' {
      AfterZero(s[1..]);
      ZeroIsUnsigned(s);
    } else if s != "" && '1' <= s[0] <= '9' {
      InInteger(s[1..]);
      DigitsAreUnsigned(s);
    } else {
      NothingUnsigned(s);
    }
  }

  lemma FromStart(s: string)
    ensures Accepts(Start, s) <==> (if s != "" && s[0] == '-' then Accepts(Minus0, s[1..]) else Accepts(Minus0, s))
  {
  }

  lemma UnsignedParts(s: string)
    ensures Unsigned(s) <==> exists i: string, f: string, e: string :: s == i + f + e && IntPart(i) && FracPart(f) && ExpPart(e)
  {
    hide IntPart, FracPart, ExpPart;
    if Unsigned(s) {
      var i: string, t: string :| s == i + t && IntPart(i) && Tail(t);
      var f: string, e: string :| t == f + e && FracPart(f) && ExpPart(e);
      assert s == i + f + e;
    }
    if i: string, f: string, e: string :| s == i + f + e && IntPart(i) && FracPart(f) && ExpPart(e) {
      assert s == i + (f + e) && Tail(f + e);
    }
  }

  lemma UnsignedStarts(s: string)
    requires Unsigned(s)
    ensures s != "" && s[0] != '-'
  {
    var i: string, t: string :| s == i + t && IntPart(i) && Tail(t);
  }

  lemma NumberIsSigned(s: string)
    ensures IsNumber(s) <==> (if s != "" && s[0] == '-' then Unsigned(s[1..]) else Unsigned(s))
  {
    hide IntPart, FracPart, ExpPart, Unsigned;
    UnsignedParts(s);
    if s != "" && s[0] == '-' {
      UnsignedParts(s[1..]);
      if Unsigned(s[1..]) {
        var i: string, f: string, e: string :| s[1..] == i + f + e && IntPart(i) && FracPart(f) && ExpPart(e);
        assert s == "-" + i + f + e;
      }
    } else if Unsigned(s) {
      var i: string, f: string, e: string :| s == i + f + e && IntPart(i) && FracPart(f) && ExpPart(e);
      assert s == "" + i + f + e;
    }
    if IsNumber(s) {
      NumberParts(s);
    }
  }

  lemma NumberParts(s: string)
    requires IsNumber(s)
    ensures if s != "" && s[0] == '-' then Unsigned(s[1..]) else Unsigned(s)
  {
    hide IntPart, FracPart, ExpPart, Unsigned;
    var minus: string, i: string, f: string, e: string :|
      s == minus + i + f + e && (minus == "" || minus == "-") && IntPart(i) && FracPart(f) && ExpPart(e);
    UnsignedParts(i + f + e);
    UnsignedStarts(i + f + e);
    if minus == "-" {
      assert s[1..] == i + f + e;
    } else {
      assert s == i + f + e;
    }
  }

  /** The automaton accepts exactly the numbers of the grammar. */
  lemma AutomatonIsGrammar(s: string)
    ensures Accepts(Start, s) <==> IsNumber(s)
  {
    FromStart(s);
    NumberIsSigned(s);
    if s != "" {
      AfterMinus(s[1..]);
    }
    AfterMinus(s);
  }

  // ----- longest match -----

  datatype Scan = Scan(text: string, rest: string)

  /** Reads on while the automaton moves; what stopped it is read again by the caller.
      The end of the input inside a number is an error. */
  function Scanned(q: State, s: string): (r: Option<Scan>)
    ensures r.Some? ==> s == r.value.text + r.value.rest && r.value.rest != ""
    decreases s
  {
    if s == "" then None
    else
      match Step(q, s[0])
      case None => if Final(q) then Some(Scan("", s)) else None
      case Some(next) =>
        (match Scanned(next, s[1..])
         case None => None
         case Some(scan) => Some(Scan([s[0]] + scan.text, scan.rest)))
  }

  lemma {:induction false} ScannedStops(q: State, s: string, n: nat)
    requires n < |s|
    ensures Scanned(q, s) == Some(Scan(s[..n], s[n..])) <==>
            Accepts(q, s[..n]) && After(q, s[..n + 1]).None?
    decreases s
  {
    hide Step;
    if n == 0 {
      assert s[..1][1..] == "" && s[..0] == "" && s[0..] == s;
      if Step(q, s[0]).Some? && Scanned(q, s).Some? {
        assert |Scanned(q, s).value.text| > 0;
      }
    } else {
      assert s[..n][1..] == s[1..][..n - 1] && s[..n + 1][1..] == s[1..][..n] && s[1..][n - 1..] == s[n..];
      if Step(q, s[0]).Some? {
        ScannedStops(Step(q, s[0]).value, s[1..], n - 1);
        ScannedFirst(q, s, n);
      }
    }
  }

  lemma ScannedFirst(q: State, s: string, n: nat)
    requires 0 < n < |s| && Step(q, s[0]).Some?
    ensures Scanned(q, s) == Some(Scan(s[..n], s[n..])) <==>
            Scanned(Step(q, s[0]).value, s[1..]) == Some(Scan(s[1..][..n - 1], s[n..]))
  {
    hide Step;
    assert [s[0]] + s[1..][..n - 1] == s[..n];
    if Scanned(q, s) == Some(Scan(s[..n], s[n..])) {
      var inner := Scanned(Step(q, s[0]).value, s[1..]).value;
      assert inner.text == ([s[0]] + inner.text)[1..] == s[..n][1..] == s[1..][..n - 1];
    }
  }

  /** Some number of the grammar begins with s. */
  ghost predicate Viable(s: string)
  {
    exists more: string :: IsNumber(s + more)
  }

  lemma {:induction false} AfterConcat(q: State, a: string, b: string)
    ensures After(q, a + b) == match After(q, a) case None => None case Some(p) => After(p, b)
    decreases a
  {
    if a == "" {
      assert a + b == b;
    } else {
      assert (a + b)[1..] == a[1..] + b;
      if Step(q, a[0]).Some? {
        AfterConcat(Step(q, a[0]).value, a[1..], b);
      }
    }
  }

  function Completion(q: State): (more: string)
    ensures Accepts(q, more)
  {
    if Final(q) then "" else
      assert After(Step(q, '0').value, "0"[1..]) == Some(Step(q, '0').value);
      "0"
  }

  lemma AliveIsViable(s: string)
    ensures After(Start, s).Some? <==> Viable(s)
  {
    if After(Start, s).Some? {
      var more := Completion(After(Start, s).value);
      AfterConcat(Start, s, more);
      AutomatonIsGrammar(s + more);
    }
    if Viable(s) {
      var more: string :| IsNumber(s + more);
      AutomatonIsGrammar(s + more);
      AfterConcat(Start, s, more);
    }
  }

  /** Reading a number takes a prefix exactly when it is a number that no longer number
      of the grammar could continue with the byte that follows. */
  lemma ScanIsLongestMatch(s: string, n: nat)
    requires n < |s|
    ensures Scanned(Start, s) == Some(Scan(s[..n], s[n..])) <==> IsNumber(s[..n]) && !Viable(s[..n + 1])
  {
    ScannedStops(Start, s, n);
    AutomatonIsGrammar(s[..n]);
    AliveIsViable(s[..n + 1]);
  }

  predicate NumberByte(c: char)
  {
    IsDigit(c) || c == '.' || c == 'e' || c == 'E' || c == '+' || c == '-'
  }

  lemma {:induction false} OnlyNumberBytes(q: State, s: string)
    requires After(q, s).Some?
    ensures forall i :: 0 <= i < |s| ==> NumberByte(s[i])
    decreases s
  {
    if s != "" {
      OnlyNumberBytes(Step(q, s[0]).value, s[1..]);
      assert forall i :: 0 < i < |s| ==> s[i] == s[1..][i - 1];
    }
  }

  lemma NotViable(s: string)
    requires s != "" && !NumberByte(s[|s| - 1])
    ensures !Viable(s)
  {
    AliveIsViable(s);
    if After(Start, s).Some? {
      OnlyNumberBytes(Start, s);
    }
  }

  /** A number followed by anything that cannot be part of one is read in full. */
  lemma NumberIsScanned(text: string, rest: string)
    requires IsNumber(text) && rest != "" && !NumberByte(rest[0])
    ensures Scanned(Start, text + rest) == Some(Scan(text, rest))
  {
    var s, n := text + rest, |text|;
    assert s[..n] == text && s[n..] == rest;
    NotViable(s[..n + 1]);
    ScanIsLongestMatch(s, n);
  }

  lemma ScannedIsNumber(s: string)
    requires Scanned(Start, s).Some?
    ensures IsNumber(Scanned(Start, s).value.text)
  {
    var scan := Scanned(Start, s).value;
    assert s[..|scan.text|] == scan.text && s[|scan.text|..] == scan.rest;
    ScanIsLongestMatch(s, |scan.text|);
  }
}
