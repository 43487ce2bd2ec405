/** The language of requests, and that the parser accepts exactly that language. */
module RequestGrammar {
  import opened RequestParser

  /** A continuation line: blanks, then text that does not start with one. */
  datatype Fold = Fold(blanks: string, text: string)

  datatype Field = Field(name: string, first: string, folds: seq<Fold>)

  datatype Message = Message(method_: string, uri: string, major: string, minor: string, fields: seq<Field>)

  // ----- Text

  function FoldsText(fs: seq<Fold>): string {
    if fs == [] then "" else FoldsText(fs[..|fs| - 1]) + fs[|fs| - 1].blanks + fs[|fs| - 1].text + "\r\n"
  }

  function FieldText(f: Field): string { f.name + ": " + f.first + "\r\n" + FoldsText(f.folds) }

  function FieldsText(fs: seq<Field>): string {
    if fs == [] then "" else FieldsText(fs[..|fs| - 1]) + FieldText(fs[|fs| - 1])
  }

  function StartText(m: Message): string { m.method_ + " " + m.uri + " " }
  function VersionText(m: Message): string { StartText(m) + "HTTP/" + m.major + "." + m.minor }
  function HeadText(m: Message): string { VersionText(m) + "\r\n" + FieldsText(m.fields) }
  function MessageText(m: Message): string { HeadText(m) + "\r\n" }

  // ----- Meaning

  predicate Digits(s: string) { forall i :: 0 <= i < |s| ==> IsDigit(s[i]) }

  function Number(s: string): nat
    requires Digits(s)
  {
    if s == "" then 0 else Number(s[..|s| - 1]) * 10 + Digit(s[|s| - 1])
  }

  function FoldsValue(fs: seq<Fold>): string {
    if fs == [] then "" else FoldsValue(fs[..|fs| - 1]) + fs[|fs| - 1].text
  }

  function HeaderOf(f: Field): Header { Header(f.name, f.first + FoldsValue(f.folds)) }

  function HeadersOf(fs: seq<Field>): (hs: seq<Header>)
    ensures |hs| == |fs|
  {
    if fs == [] then [] else HeadersOf(fs[..|fs| - 1]) + [HeaderOf(fs[|fs| - 1])]
  }

  // ----- Well-formedness

  predicate Blank(c: char) { c == ' ' || c == '\t' }
  predicate Blanks(s: string) { s != "" && forall i :: 0 <= i < |s| ==> Blank(s[i]) }

  predicate FoldOk(f: Fold) { Blanks(f.blanks) && Text(f.text) && (f.text != "" ==> f.text[0] != ' ') }

  predicate FieldOk(f: Field) {
    Token(f.name) && Text(f.first) && forall i :: 0 <= i < |f.folds| ==> FoldOk(f.folds[i])
  }

  predicate FieldsOk(fs: seq<Field>) { forall i :: 0 <= i < |fs| ==> FieldOk(fs[i]) }
  predicate UriOk(s: string) { Text(s) && ' ' !in s }
  predicate NumberOk(s: string) { s != "" && Digits(s) }

  predicate StartOk(m: Message) { Token(m.method_) && UriOk(m.uri) }
  predicate HeadOk(m: Message) { StartOk(m) && NumberOk(m.major) && NumberOk(m.minor) && FieldsOk(m.fields) }

  function Meaning(m: Message): Request
    requires Digits(m.major) && Digits(m.minor)
  {
    Request(m.method_, m.uri, Number(m.major), Number(m.minor), HeadersOf(m.fields), true, false)
  }

  // ----- What the parser has seen while it is undecided

  /** The header line it is in. */
  datatype Line = NoLine | NameLine(name: string) | ColonLine(name: string) | ValueLine(name: string, first: string)
    | FoldLine(blanks: string, text: string)

  const EMPTY := Message("", "", "", "", [])

  function LineText(l: Line): string {
    match l
    case NoLine => ""
    case NameLine(name) => name
    case ColonLine(name) => name + ":"
    case ValueLine(name, first) => name + ": " + first
    case FoldLine(blanks, text) => blanks + text
  }

  /** The text that leads to a state. */
  function Seen(st: State, m: Message, l: Line): string {
    match st
    case MethodStart => ""
    case Method => m.method_
    case UriStart => ""
    case Uri => m.method_ + " " + m.uri
    case VersionH => StartText(m)
    case VersionT1 => StartText(m) + "H"
    case VersionT2 => StartText(m) + "HT"
    case VersionP => StartText(m) + "HTT"
    case VersionSlash => StartText(m) + "HTTP"
    case MajorStart => StartText(m) + "HTTP/"
    case Major => StartText(m) + "HTTP/" + m.major
    case MinorStart => StartText(m) + "HTTP/" + m.major + "."
    case Minor => VersionText(m)
    case ExpectingNewline1 => VersionText(m) + "\r"
    case ExpectingNewline2 => HeadText(m) + LineText(l) + "\r"
    case ExpectingNewline3 => HeadText(m) + "\r"
    case _ => HeadText(m) + LineText(l)
  }

  predicate LineOk(l: Line, fields: seq<Field>) {
    match l
    case NoLine => true
    case NameLine(name) => Token(name)
    case ColonLine(name) => Token(name)
    case ValueLine(name, first) => Token(name) && Text(first)
    case FoldLine(blanks, text) => fields != [] && FoldOk(Fold(blanks, text))
  }

  predicate Fits(st: State, m: Message, l: Line) {
    match st
    case MethodStart => m == EMPTY && l == NoLine
    case Method => m == EMPTY.(method_ := m.method_) && Token(m.method_) && l == NoLine
    case UriStart => false
    case Uri => m == EMPTY.(method_ := m.method_, uri := m.uri) && StartOk(m) && l == NoLine
    case Major => StartOk(m) && NumberOk(m.major) && m.minor == "" && m.fields == [] && l == NoLine
    case MinorStart => StartOk(m) && NumberOk(m.major) && m.minor == "" && m.fields == [] && l == NoLine
    case Minor => HeadOk(m) && m.fields == [] && l == NoLine
    case ExpectingNewline1 => HeadOk(m) && m.fields == [] && l == NoLine
    case HeaderLineStart => HeadOk(m) && l == NoLine
    case HeaderLws => HeadOk(m) && l.FoldLine? && l.text == "" && LineOk(l, m.fields)
    case HeaderName => HeadOk(m) && l.NameLine? && LineOk(l, m.fields)
    case SpaceBeforeValue => HeadOk(m) && l.ColonLine? && LineOk(l, m.fields)
    case HeaderValue => HeadOk(m) && (l.ValueLine? || (l.FoldLine? && l.text != "")) && LineOk(l, m.fields)
    case ExpectingNewline2 => HeadOk(m) && (l.ValueLine? || l.FoldLine?) && LineOk(l, m.fields)
    case ExpectingNewline3 => HeadOk(m) && l == NoLine
    case _ => m == EMPTY.(method_ := m.method_, uri := m.uri) && StartOk(m) && l == NoLine
  }

  function Extended(hs: seq<Header>, text: string): (r: seq<Header>)
    requires hs != []
    ensures |r| == |hs|
  {
    var n := |hs| - 1;
    hs[..n] + [hs[n].(value := hs[n].value + text)]
  }

  function SoFar(m: Message, l: Line): Request
    requires Digits(m.major) && Digits(m.minor) && LineOk(l, m.fields)
  {
    var hs := HeadersOf(m.fields);
    var now := match l
      case NoLine => hs
      case NameLine(name) => hs + [Header(name, "")]
      case ColonLine(name) => hs + [Header(name, "")]
      case ValueLine(name, first) => hs + [Header(name, first)]
      case FoldLine(_, text) => Extended(hs, text);
    Request(m.method_, m.uri, Number(m.major), Number(m.minor), now, false, false)
  }

  predicate Sound(st: State, req: Request, text: string, m: Message, l: Line) {
    && Digits(m.major) && Digits(m.minor) && LineOk(l, m.fields)
    && Fits(st, m, l) && text == Seen(st, m, l) && req == SoFar(m, l)
  }

  /** The message and line after one more character. */
  function GrowMessage(st: State, m: Message, l: Line, c: char): Message {
    match st
    case MethodStart => m.(method_ := m.method_ + [c])
    case Method => if c == ' ' then m else m.(method_ := m.method_ + [c])
    case Uri => if c == ' ' then m else m.(uri := m.uri + [c])
    case MajorStart => m.(major := [c])
    case Major => if c == '.' then m else m.(major := m.major + [c])
    case MinorStart => m.(minor := [c])
    case Minor => if c == '\r' then m else m.(minor := m.minor + [c])
    case ExpectingNewline2 =>
      if l.ValueLine? then m.(fields := m.fields + [Field(l.name, l.first, [])])
      else if l.FoldLine? && m.fields != [] then
        var n := |m.fields| - 1;
        m.(fields := m.fields[..n] + [m.fields[n].(folds := m.fields[n].folds + [Fold(l.blanks, l.text)])])
      else m
    case _ => m
  }

  function GrowLine(st: State, m: Message, l: Line, c: char): Line {
    match st
    case HeaderLineStart => if c == '\r' then NoLine else if Blank(c) then FoldLine([c], "") else NameLine([c])
    case HeaderLws =>
      if !l.FoldLine? || c == '\r' then l
      else if Blank(c) then FoldLine(l.blanks + [c], "") else FoldLine(l.blanks, [c])
    case HeaderName =>
      if !l.NameLine? then l else if c == ':' then ColonLine(l.name) else NameLine(l.name + [c])
    case SpaceBeforeValue => if l.ColonLine? then ValueLine(l.name, "") else l
    case HeaderValue =>
      if c == '\r' then l
      else if l.ValueLine? then ValueLine(l.name, l.first + [c])
      else if l.FoldLine? then FoldLine(l.blanks, l.text + [c])
      else l
    case ExpectingNewline2 => NoLine
    case _ => l
  }

  // ----- One more character

  predicate Undecided(st: State, req: Request, c: char) { Consume(st, req, c).verdict.Indeterminate? }

  predicate StaysSound(st: State, req: Request, text: string, m: Message, l: Line, c: char) {
    var p := Consume(st, req, c);
    Sound(p.state, p.req, text + [c], GrowMessage(st, m, l, c), GrowLine(st, m, l, c))
  }

  lemma StepMethod(st: State, req: Request, text: string, m: Message, l: Line, c: char)
    requires Sound(st, req, text, m, l) && Undecided(st, req, c) && (st.MethodStart? || st.Method?)
    ensures StaysSound(st, req, text, m, l, c)
  {
    if st.Method? && c == ' ' {
      assert m.method_ + " " == m.method_ + " " + m.uri;
    }
  }

  lemma StepUri(st: State, req: Request, text: string, m: Message, l: Line, c: char)
    requires Sound(st, req, text, m, l) && Undecided(st, req, c) && st.Uri?
    ensures StaysSound(st, req, text, m, l, c)
  {
    assert m.method_ + " " + m.uri + [c] == m.method_ + " " + (m.uri + [c]);
  }

  lemma StepVersion(st: State, req: Request, text: string, m: Message, l: Line, c: char)
    requires Sound(st, req, text, m, l) && Undecided(st, req, c)
    requires st.VersionH? || st.VersionT1? || st.VersionT2? || st.VersionP? || st.VersionSlash?
    ensures StaysSound(st, req, text, m, l, c)
  {
    hide StartText;
    var t := StartText(m);
    assert t + "H" + "T" == t + "HT" && t + "HT" + "T" == t + "HTT" && t + "HTT" + "P" == t + "HTTP";
    assert t + "HTTP" + "/" == t + "HTTP/";
  }

  lemma OneDigit(c: char)
    requires IsDigit(c)
    ensures Digits([c]) && Number([c]) == Digit(c)
  {
    assert [c][..0] == "";
  }

  lemma MoreDigits(s: string, c: char)
    requires Digits(s) && IsDigit(c)
    ensures Digits(s + [c]) && Number(s + [c]) == Number(s) * 10 + Digit(c)
  {
    assert (s + [c])[..|s|] == s;
  }

  lemma StepMajor(st: State, req: Request, text: string, m: Message, l: Line, c: char)
    requires Sound(st, req, text, m, l) && Undecided(st, req, c) && (st.MajorStart? || st.Major?)
    ensures StaysSound(st, req, text, m, l, c)
  {
    hide StartText, Number, Digit, HeadersOf;
    var t := StartText(m) + "HTTP/";
    if st.MajorStart? {
      OneDigit(c);
      EmptyNumber();
    } else if c != '.' {
      MoreDigits(m.major, c);
      assert t + m.major + [c] == t + (m.major + [c]);
    }
    assert StartText(GrowMessage(st, m, l, c)) == StartText(m) by { SameStart(st, m, l, c); }
  }

  lemma EmptyNumber()
    ensures Number("") == 0
  {
  }

  lemma SameStart(st: State, m: Message, l: Line, c: char)
    requires !st.MethodStart? && !st.Method? && !st.Uri?
    ensures StartText(GrowMessage(st, m, l, c)) == StartText(m)
  {
  }

  lemma StepMinor(st: State, req: Request, text: string, m: Message, l: Line, c: char)
    requires Sound(st, req, text, m, l) && Undecided(st, req, c) && (st.MinorStart? || st.Minor?)
    ensures StaysSound(st, req, text, m, l, c)
  {
    hide StartText, Number, Digit, HeadersOf;
    var t := StartText(m) + "HTTP/" + m.major + ".";
    if st.MinorStart? {
      OneDigit(c);
      EmptyNumber();
    } else if c != '\r' {
      MoreDigits(m.minor, c);
      assert t + m.minor + [c] == t + (m.minor + [c]);
    }
    SameStart(st, m, l, c);
  }

  lemma StepNewline1(st: State, req: Request, text: string, m: Message, l: Line, c: char)
    requires Sound(st, req, text, m, l) && Undecided(st, req, c) && st.ExpectingNewline1?
    ensures StaysSound(st, req, text, m, l, c)
  {
    hide VersionText;
    var t := VersionText(m);
    assert t + "\r" + "\n" == t + "\r\n" + "" + "";
  }

  lemma ExtendNothing(hs: seq<Header>)
    requires hs != []
    ensures Extended(hs, "") == hs
  {
    var n := |hs| - 1;
    assert hs[n].value + "" == hs[n].value;
  }

  lemma StepLineStart(st: State, req: Request, text: string, m: Message, l: Line, c: char)
    requires Sound(st, req, text, m, l) && Undecided(st, req, c) && st.HeaderLineStart?
    ensures StaysSound(st, req, text, m, l, c)
  {
    hide HeadText, HeadOk, Number, HeadersOf;
    var t, hs := HeadText(m), HeadersOf(m.fields);
    assert t + "" + [c] == t + [c] && [c] + "" == [c];
    if c != '\r' && Blank(c) {
      assert hs != [];
      ExtendNothing(hs);
    }
  }

  lemma StepLws(st: State, req: Request, text: string, m: Message, l: Line, c: char)
    requires Sound(st, req, text, m, l) && Undecided(st, req, c) && st.HeaderLws?
    ensures StaysSound(st, req, text, m, l, c)
  {
    hide HeadText, HeadOk, Number, HeadersOf;
    var t, hs := HeadText(m), HeadersOf(m.fields);
    ExtendNothing(hs);
    if c != '\r' {
      assert t + (l.blanks + "") + [c] == t + (l.blanks + [c] + "") == t + (l.blanks + [c]);
      if !Blank(c) {
        PushIsExtend(req, hs, "", c);
      }
    }
  }

  /** Pushing onto the value of the last header extends it. */
  lemma PushIsExtend(req: Request, hs: seq<Header>, text: string, c: char)
    requires hs != [] && req.headers == Extended(hs, text)
    ensures PushValue(req, c) == req.(headers := Extended(hs, text + [c]))
  {
    var n := |hs| - 1;
    assert hs[n].value + text + [c] == hs[n].value + (text + [c]);
    assert PushValue(req, c).headers == Extended(hs, text + [c]);
  }

  lemma StepName(st: State, req: Request, text: string, m: Message, l: Line, c: char)
    requires Sound(st, req, text, m, l) && Undecided(st, req, c) && st.HeaderName?
    ensures StaysSound(st, req, text, m, l, c)
  {
    hide HeadText, HeadOk, Number, HeadersOf;
    var t, hs := HeadText(m), HeadersOf(m.fields);
    assert t + l.name + [c] == t + (l.name + [c]);
    if c != ':' {
      var bare := req.(headers := hs);
      assert req == With(bare, l.name, "");
      PushOnto(bare, l.name, "", c);
    }
  }

  lemma StepSpace(st: State, req: Request, text: string, m: Message, l: Line, c: char)
    requires Sound(st, req, text, m, l) && Undecided(st, req, c) && st.SpaceBeforeValue?
    ensures StaysSound(st, req, text, m, l, c)
  {
    hide HeadText, HeadOk, Number, HeadersOf;
    assert HeadText(m) + (l.name + ":") + " " == HeadText(m) + (l.name + ": " + "");
  }

  lemma StepValue(st: State, req: Request, text: string, m: Message, l: Line, c: char)
    requires Sound(st, req, text, m, l) && Undecided(st, req, c) && st.HeaderValue?
    ensures StaysSound(st, req, text, m, l, c)
  {
    hide HeadText, HeadOk, Number, HeadersOf;
    var t, hs := HeadText(m), HeadersOf(m.fields);
    if c != '\r' {
      if l.ValueLine? {
        var bare := req.(headers := hs);
        assert req == With(bare, l.name, l.first);
        PushOnto(bare, l.name, l.first, c);
        assert t + (l.name + ": " + l.first) + [c] == t + (l.name + ": " + (l.first + [c]));
      } else {
        PushIsExtend(req, hs, l.text, c);
        assert t + (l.blanks + l.text) + [c] == t + (l.blanks + (l.text + [c]));
      }
    }
  }

  lemma NewField(m: Message, name: string, first: string)
    ensures
      var m' := m.(fields := m.fields + [Field(name, first, [])]);
      && HeadText(m') == HeadText(m) + (name + ": " + first) + "\r\n"
      && HeadersOf(m'.fields) == HeadersOf(m.fields) + [Header(name, first)]
  {
    var f := Field(name, first, []);
    var fs := m.fields + [f];
    assert fs[..|m.fields|] == m.fields;
    assert FieldText(f) == (name + ": " + first) + "\r\n";
    assert HeaderOf(f) == Header(name, first + "");
    assert first + "" == first;
    var t := VersionText(m) + "\r\n";
    assert t + (FieldsText(m.fields) + FieldText(f)) == t + FieldsText(m.fields) + FieldText(f);
    assert t + FieldsText(m.fields) + ((name + ": " + first) + "\r\n")
        == t + FieldsText(m.fields) + (name + ": " + first) + "\r\n";
  }

  lemma FoldedField(f: Field, fold: Fold)
    ensures
      var f' := f.(folds := f.folds + [fold]);
      && FieldText(f') == FieldText(f) + (fold.blanks + fold.text + "\r\n")
      && HeaderOf(f') == HeaderOf(f).(value := HeaderOf(f).value + fold.text)
  {
    assert (f.folds + [fold])[..|f.folds|] == f.folds;
  }

  lemma NewFold(m: Message, fold: Fold)
    requires m.fields != []
    ensures
      var n := |m.fields| - 1;
      var m' := m.(fields := m.fields[..n] + [m.fields[n].(folds := m.fields[n].folds + [fold])]);
      && HeadText(m') == HeadText(m) + (fold.blanks + fold.text) + "\r\n"
      && HeadersOf(m'.fields) == Extended(HeadersOf(m.fields), fold.text)
  {
    hide FieldText, HeaderOf, VersionText;
    var n := |m.fields| - 1;
    var f := m.fields[n];
    FoldedField(f, fold);
    var f' := f.(folds := f.folds + [fold]);
    var fs' := m.fields[..n] + [f'];
    assert fs'[..n] == m.fields[..n];
    assert HeadersOf(m.fields)[..n] == HeadersOf(m.fields[..n]);
    var t := VersionText(m) + "\r\n";
    var before := FieldsText(m.fields[..n]);
    assert t + (before + (FieldText(f) + (fold.blanks + fold.text + "\r\n")))
        == t + (before + FieldText(f)) + (fold.blanks + fold.text) + "\r\n";
    assert VersionText(m.(fields := fs')) == VersionText(m) by { SameVersion(m, fs'); }
  }

  lemma SameVersion(m: Message, fields: seq<Field>)
    ensures VersionText(m.(fields := fields)) == VersionText(m)
  {
  }

  lemma StepNewline2(st: State, req: Request, text: string, m: Message, l: Line, c: char)
    requires Sound(st, req, text, m, l) && Undecided(st, req, c) && st.ExpectingNewline2?
    ensures StaysSound(st, req, text, m, l, c)
  {
    hide HeadText, Number, HeadersOf, StartOk, NumberOk;
    var t := HeadText(m);
    var m' := GrowMessage(st, m, l, c);
    assert t + LineText(l) + "\r" + "\n" == t + LineText(l) + "\r\n";
    if l.ValueLine? {
      NewField(m, l.name, l.first);
    } else {
      NewFold(m, Fold(l.blanks, l.text));
    }
    assert HeadText(m') + "" == HeadText(m');
    assert FieldsOk(m'.fields);
    SameStartOk(m, m'.fields);
  }

  lemma SameStartOk(m: Message, fields: seq<Field>)
    ensures StartOk(m.(fields := fields)) == StartOk(m)
  {
  }

  lemma StepSound(st: State, req: Request, text: string, m: Message, l: Line, c: char)
    requires Sound(st, req, text, m, l) && Undecided(st, req, c)
    ensures StaysSound(st, req, text, m, l, c)
  {
    hide StaysSound, Sound, Undecided;
    match st
    case MethodStart => StepMethod(st, req, text, m, l, c);
    case Method => StepMethod(st, req, text, m, l, c);
    case Uri => StepUri(st, req, text, m, l, c);
    case MajorStart => StepMajor(st, req, text, m, l, c);
    case Major => StepMajor(st, req, text, m, l, c);
    case MinorStart => StepMinor(st, req, text, m, l, c);
    case Minor => StepMinor(st, req, text, m, l, c);
    case ExpectingNewline1 => StepNewline1(st, req, text, m, l, c);
    case HeaderLineStart => StepLineStart(st, req, text, m, l, c);
    case HeaderLws => StepLws(st, req, text, m, l, c);
    case HeaderName => StepName(st, req, text, m, l, c);
    case SpaceBeforeValue => StepSpace(st, req, text, m, l, c);
    case HeaderValue => StepValue(st, req, text, m, l, c);
    case ExpectingNewline2 => StepNewline2(st, req, text, m, l, c);
    case VersionH => StepVersion(st, req, text, m, l, c);
    case VersionT1 => StepVersion(st, req, text, m, l, c);
    case VersionT2 => StepVersion(st, req, text, m, l, c);
    case VersionP => StepVersion(st, req, text, m, l, c);
    case VersionSlash => StepVersion(st, req, text, m, l, c);
    case _ => DecidedOrNever(st, req, text, m, l, c);
  }

  /** Nothing leads to the state before a URI, and the last newline decides. */
  lemma DecidedOrNever(st: State, req: Request, text: string, m: Message, l: Line, c: char)
    requires st.UriStart? || st.ExpectingNewline3?
    ensures !(Sound(st, req, text, m, l) && Undecided(st, req, c))
  {
  }

  // ----- Everything accepted is a message

  function TraceMessage(text: string): Message {
    if text == "" then EMPTY
    else
      var n := |text| - 1;
      GrowMessage(Feed(MethodStart, FRESH, text[..n]).state, TraceMessage(text[..n]), TraceLine(text[..n]), text[n])
  }

  function TraceLine(text: string): Line {
    if text == "" then NoLine
    else
      var n := |text| - 1;
      GrowLine(Feed(MethodStart, FRESH, text[..n]).state, TraceMessage(text[..n]), TraceLine(text[..n]), text[n])
  }

  lemma {:induction false} UndecidedIsSeen(text: string)
    requires Feed(MethodStart, FRESH, text).verdict.Indeterminate?
    ensures
      var p := Feed(MethodStart, FRESH, text);
      Sound(p.state, p.req, text, TraceMessage(text), TraceLine(text))
  {
    hide Consume, Sound, GrowMessage, GrowLine;
    if text == "" {
      NothingSeen();
    } else {
      var n := |text| - 1;
      UndecidedIsSeen(text[..n]);
      var p := Feed(MethodStart, FRESH, text[..n]);
      StepSound(p.state, p.req, text[..n], TraceMessage(text[..n]), TraceLine(text[..n]), text[n]);
      assert text[..n] + [text[n]] == text;
    }
  }

  lemma NothingSeen()
    ensures Sound(MethodStart, FRESH, "", EMPTY, NoLine)
  {
  }

  /** The parser says yes on the last character and not before. */
  predicate Accepts(text: string) {
    && text != "" && Feed(MethodStart, FRESH, text[..|text| - 1]).verdict.Indeterminate?
    && Feed(MethodStart, FRESH, text).verdict.Good?
  }

  /** What the parser accepts is the text of a well-formed message, and the request it built is its meaning. */
  lemma AcceptedIsMessage(text: string) returns (m: Message)
    requires Accepts(text)
    ensures HeadOk(m) && text == MessageText(m) && Feed(MethodStart, FRESH, text).req == Meaning(m)
  {
    hide Consume, Sound, HeadOk, MessageText, Meaning, TraceMessage, TraceLine;
    var n := |text| - 1;
    var p := Feed(MethodStart, FRESH, text[..n]);
    UndecidedIsSeen(text[..n]);
    m := TraceMessage(text[..n]);
    GoodOnlyAtEnd(p.state, p.req, text[n]);
    LastNewline(p.req, text[..n], m, TraceLine(text[..n]));
    assert text == text[..n] + [text[n]];
  }

  lemma GoodOnlyAtEnd(st: State, req: Request, c: char)
    requires Consume(st, req, c).verdict.Good?
    ensures st.ExpectingNewline3? && c == '\n' && Consume(st, req, c).state == st
  {
  }

  lemma LastNewline(req: Request, text: string, m: Message, l: Line)
    requires Sound(ExpectingNewline3, req, text, m, l)
    ensures HeadOk(m) && NumbersOk(m) && text + "\n" == MessageText(m)
    ensures Consume(ExpectingNewline3, req, '\n').req == Meaning(m)
  {
    hide HeadText, HeadersOf, Number;
    assert HeadText(m) + "\r" + "\n" == HeadText(m) + "\r\n";
  }

  // ----- Every message is accepted

  lemma {:induction false} FeedMajor(req: Request, s: string)
    requires req.major == 0 && NumberOk(s)
    ensures Feed(MajorStart, req, s) == Go(Major, req.(major := Number(s)))
  {
    hide Number;
    var n := |s| - 1;
    assert IsDigit(s[n]);
    if n == 0 {
      FeedOne(MajorStart, req, s);
      OneDigit(s[0]);
      assert s == [s[0]];
    } else {
      FeedMajor(req, s[..n]);
      MoreDigits(s[..n], s[n]);
      assert s[..n] + [s[n]] == s;
    }
  }

  lemma {:induction false} FeedMinor(req: Request, s: string)
    requires req.minor == 0 && NumberOk(s)
    ensures Feed(MinorStart, req, s) == Go(Minor, req.(minor := Number(s)))
  {
    hide Number;
    var n := |s| - 1;
    assert IsDigit(s[n]);
    if n == 0 {
      FeedOne(MinorStart, req, s);
      OneDigit(s[0]);
      assert s == [s[0]];
    } else {
      FeedMinor(req, s[..n]);
      MoreDigits(s[..n], s[n]);
      assert s[..n] + [s[n]] == s;
    }
  }

  lemma {:induction false} FeedBlanks(req: Request, s: string)
    requires req.headers != [] && Blanks(s)
    ensures Feed(HeaderLineStart, req, s) == Go(HeaderLws, req)
  {
    var n := |s| - 1;
    assert Blank(s[n]);
    if n == 0 {
      FeedOne(HeaderLineStart, req, s);
    } else {
      FeedBlanks(req, s[..n]);
    }
  }

  /** Text after the start of a value, or after the blanks of a continuation line, extends the last header. */
  lemma {:induction false} FeedText(st: State, req: Request, s: string)
    requires req.headers != [] && Text(s) && s != ""
    requires st.HeaderValue? || (st.HeaderLws? && s[0] != ' ')
    ensures Feed(st, req, s) == Go(HeaderValue, req.(headers := Extended(req.headers, s)))
  {
    var n := |s| - 1;
    var hs := req.headers;
    assert !IsCtl(s[n]) && s[..n] + [s[n]] == s;
    ExtendNothing(hs);
    if n == 0 {
      FeedOne(st, req, s);
      PushIsExtend(req, hs, "", s[0]);
      assert "" + [s[0]] == s;
    } else {
      FeedText(st, req, s[..n]);
      PushIsExtend(req.(headers := Extended(hs, s[..n])), hs, s[..n], s[n]);
    }
  }

  lemma FeedFold(req: Request, f: Fold)
    requires req.headers != [] && FoldOk(f)
    ensures
      Feed(HeaderLineStart, req, f.blanks + f.text + "\r\n")
        == Go(HeaderLineStart, req.(headers := Extended(req.headers, f.text)))
  {
    hide Feed, Extended;
    var after := req.(headers := Extended(req.headers, f.text));
    FeedBlanks(req, f.blanks);
    if f.text == "" {
      ExtendNothing(req.headers);
      assert f.blanks + f.text == f.blanks;
      Pair(HeaderLws, req, "\r\n", Go(ExpectingNewline2, req), Go(HeaderLineStart, req));
      Then(HeaderLineStart, req, f.blanks, Go(HeaderLws, req), "\r\n", Go(HeaderLineStart, req));
    } else {
      FeedText(HeaderLws, req, f.text);
      Then(HeaderLineStart, req, f.blanks, Go(HeaderLws, req), f.text, Go(HeaderValue, after));
      Pair(HeaderValue, after, "\r\n", Go(ExpectingNewline2, after), Go(HeaderLineStart, after));
      Then(HeaderLineStart, req, f.blanks + f.text, Go(HeaderValue, after), "\r\n", Go(HeaderLineStart, after));
    }
  }

  lemma FeedNothing(st: State, req: Request)
    ensures Feed(st, req, "") == Go(st, req)
  {
  }

  lemma ExtendTwice(hs: seq<Header>, a: string, b: string)
    requires hs != []
    ensures Extended(Extended(hs, a), b) == Extended(hs, a + b)
  {
    var n := |hs| - 1;
    assert hs[n].value + a + b == hs[n].value + (a + b);
  }

  lemma {:induction false} FeedFolds(req: Request, fs: seq<Fold>)
    requires req.headers != [] && forall i :: 0 <= i < |fs| ==> FoldOk(fs[i])
    ensures
      Feed(HeaderLineStart, req, FoldsText(fs))
        == Go(HeaderLineStart, req.(headers := Extended(req.headers, FoldsValue(fs))))
  {
    hide Feed, FoldOk, Extended;
    if fs == [] {
      FeedNothing(HeaderLineStart, req);
      ExtendNothing(req.headers);
    } else {
      var n := |fs| - 1;
      var f := fs[n];
      FeedFolds(req, fs[..n]);
      var mid := req.(headers := Extended(req.headers, FoldsValue(fs[..n])));
      FeedFold(mid, f);
      ExtendTwice(req.headers, FoldsValue(fs[..n]), f.text);
      assert FoldsText(fs) == FoldsText(fs[..n]) + (f.blanks + f.text + "\r\n");
      Then(HeaderLineStart, req, FoldsText(fs[..n]), Go(HeaderLineStart, mid), f.blanks + f.text + "\r\n",
        Go(HeaderLineStart, req.(headers := Extended(req.headers, FoldsValue(fs)))));
    }
  }

  lemma FeedField(req: Request, f: Field)
    requires FieldOk(f)
    ensures
      Feed(HeaderLineStart, req, FieldText(f)) == Go(HeaderLineStart, req.(headers := req.headers + [HeaderOf(f)]))
  {
    hide Feed;
    var h := Header(f.name, f.first);
    FeedLine(req, h);
    var mid := With(req, f.name, f.first);
    FeedFolds(mid, f.folds);
    assert Extended(mid.headers, FoldsValue(f.folds)) == req.headers + [HeaderOf(f)];
    assert FieldText(f) == RequestParser.Line(h) + FoldsText(f.folds);
    Then(HeaderLineStart, req, RequestParser.Line(h), Go(HeaderLineStart, mid), FoldsText(f.folds),
      Go(HeaderLineStart, req.(headers := req.headers + [HeaderOf(f)])));
  }

  lemma {:induction false} FeedFields(req: Request, fs: seq<Field>)
    requires FieldsOk(fs)
    ensures
      Feed(HeaderLineStart, req, FieldsText(fs))
        == Go(HeaderLineStart, req.(headers := req.headers + HeadersOf(fs)))
  {
    hide Feed, FieldText, HeaderOf, FieldOk;
    if fs == [] {
      FeedNothing(HeaderLineStart, req);
      assert req.headers + [] == req.headers;
    } else {
      var n := |fs| - 1;
      FeedFields(req, fs[..n]);
      var mid := req.(headers := req.headers + HeadersOf(fs[..n]));
      FeedField(mid, fs[n]);
      assert mid.headers + [HeaderOf(fs[n])] == req.headers + HeadersOf(fs);
      Then(HeaderLineStart, req, FieldsText(fs[..n]), Go(HeaderLineStart, mid), FieldText(fs[n]),
        Go(HeaderLineStart, req.(headers := req.headers + HeadersOf(fs))));
    }
  }

  lemma FeedStart(m: Message)
    requires StartOk(m)
    ensures Feed(MethodStart, FRESH, StartText(m)) == Go(VersionH, FRESH.(method_ := m.method_, uri := m.uri))
  {
    hide Feed;
    var a := FRESH.(method_ := m.method_);
    var b := a.(uri := m.uri);
    FeedMethodWord(m.method_);
    FeedOne(Method, a, " ");
    Then(MethodStart, FRESH, m.method_, Go(Method, a), " ", Go(Uri, a));
    FeedUri(a, m.uri);
    assert a.uri + m.uri == m.uri;
    Then(MethodStart, FRESH, m.method_ + " ", Go(Uri, a), m.uri, Go(Uri, b));
    FeedOne(Uri, b, " ");
    Then(MethodStart, FRESH, m.method_ + " " + m.uri, Go(Uri, b), " ", Go(VersionH, b));
  }

  lemma FeedVersionText(m: Message)
    requires StartOk(m) && NumberOk(m.major) && NumberOk(m.minor)
    ensures
      Feed(MethodStart, FRESH, VersionText(m) + "\r\n")
        == Go(HeaderLineStart, Request(m.method_, m.uri, Number(m.major), Number(m.minor), [], false, false))
  {
    hide Feed, StartText, Number;
    var a := FRESH.(method_ := m.method_, uri := m.uri);
    var b := a.(major := Number(m.major));
    var c := b.(minor := Number(m.minor));
    FeedStart(m);
    FeedProtocol(a);
    Then(MethodStart, FRESH, StartText(m), Go(VersionH, a), "HTTP", Go(VersionSlash, a));
    FeedOne(VersionSlash, a, "/");
    var t := StartText(m) + "HTTP" + "/";
    Then(MethodStart, FRESH, StartText(m) + "HTTP", Go(VersionSlash, a), "/", Go(MajorStart, a));
    FeedMajor(a, m.major);
    Then(MethodStart, FRESH, t, Go(MajorStart, a), m.major, Go(Major, b));
    FeedOne(Major, b, ".");
    Then(MethodStart, FRESH, t + m.major, Go(Major, b), ".", Go(MinorStart, b));
    FeedMinor(b, m.minor);
    Then(MethodStart, FRESH, t + m.major + ".", Go(MinorStart, b), m.minor, Go(Minor, c));
    Pair(Minor, c, "\r\n", Go(ExpectingNewline1, c), Go(HeaderLineStart, c));
    Then(MethodStart, FRESH, t + m.major + "." + m.minor, Go(Minor, c), "\r\n", Go(HeaderLineStart, c));
    assert StartText(m) + "HTTP" + "/" == StartText(m) + "HTTP/";
  }

  /** Every well-formed message is accepted, with its meaning. */
  lemma MessageAccepted(m: Message)
    requires HeadOk(m)
    ensures Accepts(MessageText(m)) && Feed(MethodStart, FRESH, MessageText(m)).req == Meaning(m)
  {
    hide Feed, Number, FieldsText, HeadersOf, FieldsOk, VersionText;
    FeedVersionText(m);
    var a := Request(m.method_, m.uri, Number(m.major), Number(m.minor), [], false, false);
    FeedFields(a, m.fields);
    assert [] + HeadersOf(m.fields) == HeadersOf(m.fields);
    var b := a.(headers := HeadersOf(m.fields));
    Then(MethodStart, FRESH, VersionText(m) + "\r\n", Go(HeaderLineStart, a), FieldsText(m.fields),
      Go(HeaderLineStart, b));
    var head := HeadText(m);
    FeedOne(HeaderLineStart, b, "\r");
    Then(MethodStart, FRESH, head, Go(HeaderLineStart, b), "\r", Go(ExpectingNewline3, b));
    var ready := Parsed(ExpectingNewline3, Meaning(m), Good);
    Pair(HeaderLineStart, b, "\r\n", Go(ExpectingNewline3, b), ready);
    Then(MethodStart, FRESH, head, Go(HeaderLineStart, b), "\r\n", ready);
    var text := MessageText(m);
    assert text[..|text| - 1] == head + "\r";
  }

  /** The parser accepts a text if and only if it is a message, and no text has two meanings. */
  lemma AcceptsExactly(text: string)
    ensures Accepts(text) <==> exists m :: HeadOk(m) && text == MessageText(m)
    ensures forall m, m' ::
      HeadOk(m) && HeadOk(m') && text == MessageText(m) == MessageText(m') ==> Meaning(m) == Meaning(m')
  {
    hide Accepts, HeadOk, MessageText, Meaning, Feed;
    if Accepts(text) {
      var m := AcceptedIsMessage(text);
    }
    forall m | HeadOk(m) && text == MessageText(m)
      ensures Accepts(text) && NumbersOk(m) && Feed(MethodStart, FRESH, text).req == Meaning(m)
    {
      AreNumbers(m);
      MessageAccepted(m);
    }
  }

  predicate NumbersOk(m: Message) { Digits(m.major) && Digits(m.minor) }

  lemma AreNumbers(m: Message)
    requires HeadOk(m)
    ensures NumbersOk(m)
  {
  }

  // ----- Printing

  function Print(r: Request): string { r.method_ + " " + r.uri + " HTTP/1.1\r\n" + Lines(r.headers) + "\r\n" }

  predicate Printable(r: Request) {
    && Token(r.method_) && UriOk(r.uri) && r.major == 1 && r.minor == 1
    && forall i :: 0 <= i < |r.headers| ==> Token(r.headers[i].name) && Text(r.headers[i].value)
  }

  function Plain(hs: seq<Header>): seq<Field> {
    if hs == [] then [] else Plain(hs[..|hs| - 1]) + [Field(hs[|hs| - 1].name, hs[|hs| - 1].value, [])]
  }

  lemma {:induction false} PlainFields(hs: seq<Header>)
    requires forall i :: 0 <= i < |hs| ==> Token(hs[i].name) && Text(hs[i].value)
    ensures FieldsOk(Plain(hs)) && FieldsText(Plain(hs)) == Lines(hs) && HeadersOf(Plain(hs)) == hs
  {
    hide Token, Text;
    if hs != [] {
      var n := |hs| - 1;
      PlainFields(hs[..n]);
      var f := Field(hs[n].name, hs[n].value, []);
      var fs := Plain(hs);
      assert fs[..|fs| - 1] == Plain(hs[..n]) && fs[|fs| - 1] == f;
      assert FieldText(f) == RequestParser.Line(hs[n]) && HeaderOf(f) == hs[n] && FieldOk(f);
    }
  }

  /** Printing a request in HTTP/1.1 form and parsing it gives it back, ready exactly on the last character. */
  lemma PrintParse(r: Request)
    requires Printable(r)
    ensures Feed(MethodStart, FRESH, Print(r)) == Parsed(ExpectingNewline3, r.(isReady := true, isBad := false), Good)
    ensures forall k :: 0 <= k < |Print(r)| ==> Feed(MethodStart, FRESH, Print(r)[..k]).verdict == Indeterminate
  {
    hide Feed, FieldsText, HeadersOf, Lines, FieldsOk;
    var m := Message(r.method_, r.uri, "1", "1", Plain(r.headers));
    PlainFields(r.headers);
    OneDigit('1');
    MessageAccepted(m);
    var text, n := Print(r), |Print(r)| - 1;
    assert " " + "HTTP/" + "1" + "." + "1" + "\r\n" == " HTTP/1.1\r\n";
    assert MessageText(m) == text;
    GoodAtEnd(text);
    forall k | 0 <= k < |text|
      ensures Feed(MethodStart, FRESH, text[..k]).verdict == Indeterminate
    {
      assert text[..k] + text[..n][k..] == text[..n];
      UndecidedBefore(text[..k], text[..n][k..]);
    }
  }

  lemma GoodAtEnd(text: string)
    requires Accepts(text)
    ensures Feed(MethodStart, FRESH, text).state == ExpectingNewline3
  {
    hide Consume;
    var p := Feed(MethodStart, FRESH, text[..|text| - 1]);
    GoodOnlyAtEnd(p.state, p.req, text[|text| - 1]);
  }

  lemma UndecidedBefore(a: string, b: string)
    requires Feed(MethodStart, FRESH, a + b).verdict.Indeterminate?
    ensures Feed(MethodStart, FRESH, a).verdict.Indeterminate?
  {
    FeedConcat(MethodStart, FRESH, a, b);
  }
}
