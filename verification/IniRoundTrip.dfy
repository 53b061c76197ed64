/**
 * Print and parse: a document printed line by line and parsed again calls the handler with exactly the
 * document's sections, names and values, in order, and reports the line of the first rejected call.
 */
module IniRoundTrip {
  import opened Ini

  // ---- documents ----

  /** The lines of a configuration file; pads, indents and remarks leave no trace in the calls. */
  datatype Line =
    | Blank(pad: string)
    | Comment(indent: string, text: string)
    | Heading(name: string, remark: string)
    | Entry(name: string, lead: string, delim: char, trail: string, value: string, remark: string)
    | Continuation(indent: string, value: string)

  predicate IsPad(s: string) {
    forall i | 0 <= i < |s| :: IsSpace(s[i]) && s[i] != '\n'
  }

  predicate OneLine(s: string) {
    '\n' !in s
  }

  predicate Trimmed(s: string) {
    s != "" ==> !IsSpace(s[0]) && !IsSpace(s[|s| - 1])
  }

  /** No inline comment starts inside the text. */
  predicate NoComment(s: string) {
    forall k | 1 <= k < |s| :: !(IsSpace(s[k - 1]) && s[k] == ';')
  }

  predicate Without(s: string, chars: string) {
    forall k | 0 <= k < |s| :: s[k] !in chars
  }

  /** Nothing, or an inline comment. */
  predicate IsRemark(s: string) {
    s == "" || (2 <= |s| && IsSpace(s[0]) && s[1] == ';' && OneLine(s))
  }

  function Print(line: Line): string {
    match line
    case Blank(pad) => pad + "\n"
    case Comment(indent, text) => indent + text + "\n"
    case Heading(name, remark) => "[" + name + "]" + remark + "\n"
    case Entry(name, lead, delim, trail, value, remark) =>
      name + lead + [delim] + (trail + value + remark + "\n")
    case Continuation(indent, value) => indent + value + "\n"
  }

  /**
   * Lines whose parts do not clash with comments, delimiters or one another, and fit their buffers. On the first line a
   * name cannot begin like a byte order mark.
   */
  ghost predicate Canonical(line: Line, first: bool) {
    && |Print(line)| < INI_MAX_LINE
    && match line
       case Blank(pad) => IsPad(pad)
       case Comment(indent, text) => IsPad(indent) && text != "" && text[0] in ";#" && OneLine(text)
       case Heading(name, remark) =>
         |name| < MAX_SECTION && OneLine(name) && Without(name, "]") && NoComment(name) && OneLine(remark)
       case Entry(name, lead, delim, trail, value, remark) =>
         && 0 < |name| < MAX_NAME && OneLine(name) && Without(name, "=:") && NoComment(name) && Trimmed(name)
         && name[0] !in "[;#" && (first ==> name[0] != BOM[0])
         && IsPad(lead) && delim in "=:" && IsPad(trail)
         && OneLine(value) && Trimmed(value) && NoComment(trail + value) && IsRemark(remark)
       case Continuation(indent, value) =>
         indent != "" && IsPad(indent) && value != "" && Trimmed(value) && OneLine(value) && value[0] !in ";#"
  }

  /** A continuation needs a name to continue: there is an entry since the last heading. */
  ghost predicate CanonicalFrom(doc: seq<Line>, named: bool, first: bool) {
    doc != [] ==>
      && Canonical(doc[0], first)
      && (doc[0].Continuation? ==> named)
      && CanonicalFrom(doc[1..], doc[0].Entry? || (named && !doc[0].Heading?), false)
  }

  function PrintAll(doc: seq<Line>): string {
    if doc == [] then "" else Print(doc[0]) + PrintAll(doc[1..])
  }

  /** The calls a document asks for, given the current section and the last name. */
  function Wanted(doc: seq<Line>, section: string, name: string): seq<Call> {
    if doc == [] then []
    else
      match doc[0]
      case Heading(heading, _) => Wanted(doc[1..], heading, "")
      case Entry(n, _, _, _, value, _) => [Call(section, n, value)] + Wanted(doc[1..], section, n)
      case Continuation(_, value) => [Call(section, name, value)] + Wanted(doc[1..], section, name)
      case _ => Wanted(doc[1..], section, name)
  }

  /** The line of the first call that the handler rejects; `lineno` lines and `calls` calls have passed. */
  function FirstRejected(accept: Handler, doc: seq<Line>, section: string, name: string, lineno: nat,
                         calls: seq<Call>): nat {
    if doc == [] then 0
    else
      match doc[0]
      case Heading(heading, _) => FirstRejected(accept, doc[1..], heading, "", lineno + 1, calls)
      case Entry(n, _, _, _, value, _) =>
        if !accept(calls, Call(section, n, value)) then lineno + 1
        else FirstRejected(accept, doc[1..], section, n, lineno + 1, calls + [Call(section, n, value)])
      case Continuation(_, value) =>
        if !accept(calls, Call(section, name, value)) then lineno + 1
        else FirstRejected(accept, doc[1..], section, name, lineno + 1, calls + [Call(section, name, value)])
      case _ => FirstRejected(accept, doc[1..], section, name, lineno + 1, calls)
  }

  // ---- helpers: stripping and scanning ----

  lemma {:induction false} StripTail(body: string, tail: string)
    requires body == "" || !IsSpace(body[|body| - 1])
    requires forall i | 0 <= i < |tail| :: IsSpace(tail[i])
    ensures RStrip(body + tail) == body
  {
    if tail == "" {
      assert body + tail == body;
    } else {
      StripTail(body, tail[..|tail| - 1]);
      assert (body + tail)[..|body + tail| - 1] == body + tail[..|tail| - 1];
    }
  }

  /** Stripping stops at the last character that is no whitespace. */
  lemma StripKeeps(body: string, tail: string)
    requires body != "" && !IsSpace(body[|body| - 1])
    ensures RStrip(body + tail) == body + RStrip(tail)
  {
    var kept := RStrip(tail);
    assert tail == kept + tail[|kept|..];
    assert body + tail == (body + kept) + tail[|kept|..];
    StripTail(body + kept, tail[|kept|..]);
  }

  lemma IndentIs(pad: string, body: string)
    requires forall i | 0 <= i < |pad| :: IsSpace(pad[i])
    requires body == "" || !IsSpace(body[0])
    ensures Indent(pad + body) == |pad| && (pad + body)[|pad|..] == body
  {
  }

  /** A scan runs over a text in which it does not stop. */
  lemma FindRuns(text: string, chars: string, n: nat)
    requires n <= |text| && forall k | 0 <= k < n :: !StopsAt(text, chars, k)
    requires n < |text| ==> StopsAt(text, chars, n)
    ensures FindFrom(text, chars, 0) == n
  {
  }

  lemma {:induction false} ChunkIsLine(body: string, rest: string, num: nat)
    requires OneLine(body) && |body| + 1 < num
    ensures ChunkLength(body + "\n" + rest, num) == |body| + 1
  {
    if body != "" {
      ChunkIsLine(body[1..], rest, num - 1);
      assert (body + "\n" + rest)[1..] == body[1..] + "\n" + rest;
    }
  }

  // ---- one line of each kind ----

  /** A line, if it is the first without a byte order mark, is parsed as its stripped text. */
  lemma LineIsText(accept: Handler, st: State, whole: string, pad: string, body: string)
    requires whole != "" && (st.lineno == 0 ==> whole[0] != BOM[0]) && IsPad(pad) && RStrip(whole) == pad + body
    requires body == "" || !IsSpace(body[0])
    ensures ParseLine(accept, st, whole) == ParseText(accept, st.(lineno := st.lineno + 1), |pad|, body)
  {
    hide RStrip, ParseText;
    assert SkipBom(st.lineno + 1, whole) == 0;
    assert whole[0..] == whole;
    IndentIs(pad, body);
  }

  lemma ParseBlank(accept: Handler, st: State, line: Line)
    requires line.Blank? && Canonical(line, st.lineno == 0)
    ensures ParseLine(accept, st, Print(line)) == st.(lineno := st.lineno + 1)
  {
    hide ParseLine, RStrip;
    var whole := Print(line);
    assert forall i | 0 <= i < |whole| :: IsSpace(whole[i]);
    assert "" + whole == whole;
    StripTail("", whole);
    LineIsText(accept, st, whole, "", "");
  }

  lemma ParseComment(accept: Handler, st: State, line: Line)
    requires line.Comment? && Canonical(line, st.lineno == 0)
    ensures ParseLine(accept, st, Print(line)) == st.(lineno := st.lineno + 1)
  {
    hide ParseLine, RStrip;
    var whole := Print(line);
    assert whole[0] == if line.indent == "" then line.text[0] else line.indent[0];
    var head, tail := line.indent + [line.text[0]], line.text[1..] + "\n";
    assert whole == head + tail;
    StripKeeps(head, tail);
    var body := [line.text[0]] + RStrip(tail);
    assert head + RStrip(tail) == line.indent + body;
    LineIsText(accept, st, whole, line.indent, body);
  }

  lemma ParseContinuation(accept: Handler, st: State, line: Line)
    requires line.Continuation? && Canonical(line, st.lineno == 0) && st.prevName != ""
    ensures ParseLine(accept, st, Print(line)) ==
            Handle(accept, st.(lineno := st.lineno + 1), Call(st.section, st.prevName, line.value))
  {
    hide ParseLine, RStrip;
    var whole := Print(line);
    assert whole[0] == line.indent[0] && IsSpace(whole[0]);
    StripTail(line.indent + line.value, "\n");
    LineIsText(accept, st, whole, line.indent, line.value);
  }

  lemma ParseHeading(accept: Handler, st: State, line: Line)
    requires line.Heading? && Canonical(line, st.lineno == 0)
    ensures ParseLine(accept, st, Print(line)) ==
            st.(lineno := st.lineno + 1, section := line.name, prevName := "")
  {
    hide ParseLine, RStrip;
    var whole := Print(line);
    var head, tail := "[" + line.name + "]", line.remark + "\n";
    assert whole == head + tail;
    StripKeeps(head, tail);
    var text := head + RStrip(tail);
    assert "" + text == text;
    LineIsText(accept, st, whole, "", text);
    HeadingText(accept, st.(lineno := st.lineno + 1), line.name, RStrip(tail));
  }

  lemma HeadingText(accept: Handler, st: State, name: string, rest: string)
    requires |name| < MAX_SECTION && Without(name, "]") && NoComment(name)
    ensures ParseText(accept, st, 0, "[" + name + "]" + rest) == st.(section := name, prevName := "")
  {
    hide NoComment, FindFrom;
    var text := "[" + name + "]" + rest;
    var inner := text[1..];
    assert inner == name + "]" + rest;
    HeadingStops(name, rest);
    assert inner[..|name|] == name;
  }

  lemma HeadingStops(name: string, rest: string)
    requires Without(name, "]") && NoComment(name)
    ensures FindFrom(name + "]" + rest, "]", 0) == |name|
  {
    var text := name + "]" + rest;
    forall k | 0 <= k < |name|
      ensures !StopsAt(text, "]", k)
    {
      assert text[k] == name[k];
      assert k > 0 ==> text[k - 1] == name[k - 1];
    }
    FindRuns(text, "]", |name|);
  }

  lemma NameStops(name: string, lead: string, delim: char, rest: string)
    requires Without(name, "=:") && NoComment(name) && IsPad(lead) && delim in "=:"
    ensures FindFrom(name + lead + [delim] + rest, "=:", 0) == |name + lead|
  {
    var text := name + lead + [delim] + rest;
    forall k | 0 <= k < |name + lead|
      ensures !StopsAt(text, "=:", k)
    {
      if k < |name| {
        assert text[k] == name[k];
        assert k > 0 ==> text[k - 1] == name[k - 1];
      } else {
        assert text[k] == lead[k - |name|];
      }
    }
    FindRuns(text, "=:", |name + lead|);
  }

  /** The value of an entry is read back, whatever surrounds it. */
  lemma ValueIsRead(trail: string, value: string, remark: string)
    requires IsPad(trail) && Trimmed(value) && NoComment(trail + value) && IsRemark(remark)
    ensures ValueOf(RStrip(trail + value + remark + "\n")) == value
  {
    if remark != "" {
      RemarkStops(trail, value, remark);
    } else if value == "" {
      StripTail("", trail + value + remark + "\n");
      assert "" + (trail + value + remark + "\n") == trail + value + remark + "\n";
    } else {
      assert trail + value + remark + "\n" == (trail + value) + "\n";
      StripTail(trail + value, "\n");
      PlainValue(trail, value);
    }
  }

  /** A text that no scan stops at is trimmed to its value. */
  lemma PlainValue(trail: string, value: string)
    requires IsPad(trail) && Trimmed(value) && NoComment(trail + value)
    ensures ValueOf(trail + value) == value
  {
    hide Indent, RStrip;
    var text := trail + value;
    FindRuns(text, "", |text|);
    assert text[..|text|] == text == trail + value + "";
    TrimmedBack(trail, value, "");
  }

  lemma TrimmedBack(trail: string, value: string, space: string)
    requires IsPad(trail) && IsPad(space) && Trimmed(value)
    ensures var text := trail + value + space; RStrip(text[Indent(text)..]) == value
  {
    var text := trail + value + space;
    if value == "" {
      assert text == trail + space + "";
      IndentIs(trail + space, "");
      assert RStrip("") == "";
    } else {
      assert text == trail + (value + space);
      IndentIs(trail, value + space);
      StripTail(value, space);
    }
  }

  lemma RemarkStops(trail: string, value: string, remark: string)
    requires IsPad(trail) && Trimmed(value) && NoComment(trail + value) && IsRemark(remark) && remark != ""
    ensures ValueOf(RStrip(trail + value + remark + "\n")) == value
  {
    var body := trail + value + remark[..1];
    var head, tail := body + ";", remark[2..] + "\n";
    assert trail + value + remark + "\n" == head + tail;
    StripKeeps(head, tail);
    var text := head + RStrip(tail);
    forall k | 0 <= k < |body|
      ensures !StopsAt(text, "", k)
    {
      if k < |trail + value| {
        assert text[k] == (trail + value)[k];
        assert k > 0 ==> text[k - 1] == (trail + value)[k - 1];
      } else {
        assert text[k] == remark[0];
      }
    }
    assert text[|body|] == ';' && text[|body| - 1] == remark[0];
    FindRuns(text, "", |body|);
    assert text[..|body|] == trail + value + remark[..1];
    TrimmedBack(trail, value, remark[..1]);
  }

  lemma ParseEntry(accept: Handler, st: State, line: Line)
    requires line.Entry? && Canonical(line, st.lineno == 0)
    ensures ParseLine(accept, st, Print(line)) ==
            Handle(accept, st.(lineno := st.lineno + 1, prevName := line.name),
                   Call(st.section, line.name, line.value))
  {
    hide ParseLine, RStrip, ValueOf, NoComment;
    var Entry(name, lead, delim, trail, value, remark) := line;
    var whole := Print(line);
    var head, tail := name + lead + [delim], trail + value + remark + "\n";
    assert whole == head + tail;
    StripKeeps(head, tail);
    var text := head + RStrip(tail);
    assert "" + text == text;
    LineIsText(accept, st, whole, "", text);
    ValueIsRead(trail, value, remark);
    EntryText(accept, st.(lineno := st.lineno + 1), name, lead, delim, RStrip(tail));
  }

  lemma EntryText(accept: Handler, st: State, name: string, lead: string, delim: char, rest: string)
    requires 0 < |name| < MAX_NAME && Without(name, "=:") && NoComment(name) && Trimmed(name)
    requires name[0] !in "[;#" && IsPad(lead) && delim in "=:"
    ensures ParseText(accept, st, 0, name + lead + [delim] + rest) ==
            Handle(accept, st.(prevName := name), Call(st.section, name, ValueOf(rest)))
  {
    hide NoComment, FindFrom, RStrip, ValueOf, Handle;
    var text := name + lead + [delim] + rest;
    NameStops(name, lead, delim, rest);
    assert text[..|name + lead|] == name + lead;
    assert text[|name + lead| + 1..] == rest;
    StripTail(name, lead);
  }

  // ---- whole documents ----

  /** What one line of a document does. */
  function LineDone(accept: Handler, st: State, line: Line): State {
    var next := st.(lineno := st.lineno + 1);
    match line
    case Heading(name, _) => next.(section := name, prevName := "")
    case Entry(name, _, _, _, value, _) =>
      Handle(accept, next.(prevName := name), Call(st.section, name, value))
    case Continuation(_, value) => Handle(accept, next, Call(st.section, st.prevName, value))
    case _ => next
  }

  lemma ParseOne(accept: Handler, st: State, line: Line)
    requires Canonical(line, st.lineno == 0) && (line.Continuation? ==> st.prevName != "")
    ensures ParseLine(accept, st, Print(line)) == LineDone(accept, st, line)
  {
    hide ParseLine, Print, Canonical, Handle;
    match line {
      case Blank(_) => ParseBlank(accept, st, line);
      case Comment(_, _) => ParseComment(accept, st, line);
      case Heading(_, _) => ParseHeading(accept, st, line);
      case Entry(_, _, _, _, _, _) => ParseEntry(accept, st, line);
      case Continuation(_, _) => ParseContinuation(accept, st, line);
    }
  }

  /** The reader finds the end of a printed line. */
  lemma LineIsRead(line: Line, rest: string)
    requires Canonical(line, false)
    ensures ChunkLength(Print(line) + rest, INI_MAX_LINE) == |Print(line)|
  {
    hide NoComment, Trimmed;
    var whole := Print(line);
    var body := whole[..|whole| - 1];
    assert whole == body + "\n";
    assert OneLine(body);
    ChunkIsLine(body, rest, INI_MAX_LINE);
  }

  lemma {:induction false} ParseDocument(accept: Handler, st: State, doc: seq<Line>)
    requires CanonicalFrom(doc, st.prevName != "", st.lineno == 0)
    ensures var end := ParseFrom(accept, st, PrintAll(doc));
            && end.calls == st.calls + Wanted(doc, st.section, st.prevName)
            && end.error == if st.error != 0 then st.error
                            else FirstRejected(accept, doc, st.section, st.prevName, st.lineno, st.calls)
    decreases |doc|
  {
    hide ParseLine, ParseFrom, Print, Canonical;
    if doc == [] {
      EmptyText(accept, st);
    } else {
      ReadOne(accept, st, doc[0], PrintAll(doc[1..]));
      CanonicalLater(doc[0], st.lineno == 0);
      NextIsCanonical(accept, st, doc[0]);
      ParseDocument(accept, LineDone(accept, st, doc[0]), doc[1..]);
    }
  }

  lemma EmptyText(accept: Handler, st: State)
    ensures ParseFrom(accept, st, "") == st
  {
  }

  lemma ReadOne(accept: Handler, st: State, line: Line, rest: string)
    requires Canonical(line, st.lineno == 0) && (line.Continuation? ==> st.prevName != "")
    ensures ParseFrom(accept, st, Print(line) + rest) == ParseFrom(accept, LineDone(accept, st, line), rest)
  {
    hide ParseLine, Print, Canonical, ChunkLength, LineDone;
    var text := Print(line) + rest;
    CanonicalLater(line, st.lineno == 0);
    LineIsRead(line, rest);
    assert text[..|Print(line)|] == Print(line) && text[|Print(line)|..] == rest;
    ParseOne(accept, st, line);
    PrintedIsNotEmpty(line);
  }

  lemma CanonicalLater(line: Line, first: bool)
    requires Canonical(line, first)
    ensures Canonical(line, false)
  {
  }

  lemma PrintedIsNotEmpty(line: Line)
    ensures Print(line) != ""
  {
  }

  lemma NextIsCanonical(accept: Handler, st: State, line: Line)
    requires Canonical(line, false)
    ensures (LineDone(accept, st, line).prevName != "") ==
            (line.Entry? || (st.prevName != "" && !line.Heading?))
    ensures LineDone(accept, st, line).lineno == st.lineno + 1
  {
  }

  /**
   * A canonical document, printed and parsed, calls the handler with exactly its sections, names and
   * values, in order; the parser reports the line of the first call the handler rejects, or 0.
   */
  lemma PrintParse(accept: Handler, doc: seq<Line>)
    requires CanonicalFrom(doc, false, true)
    ensures ParseString(accept, PrintAll(doc)) ==
            (Wanted(doc, "", ""), FirstRejected(accept, doc, "", "", 0, []))
  {
    ParseDocument(accept, START, doc);
    assert [] + Wanted(doc, "", "") == Wanted(doc, "", "");
  }

  // ---- byte order marks and whitespace ----

  lemma FirstLineUnmarked(line: Line)
    requires Canonical(line, true)
    ensures Print(line)[0] != BOM[0]
  {
  }

  /** On the first line a byte order mark makes no difference. */
  lemma MarkIsSkipped(accept: Handler, line: string)
    requires line != "" && line[0] != BOM[0]
    ensures ParseLine(accept, START, BOM + line) == ParseLine(accept, START, line)
  {
    hide RStrip, Indent, SectionLine, PairLine;
    var marked := BOM + line;
    assert BOM <= marked && marked[3..] == line && !(BOM <= line);
    assert line[0..] == line;
  }

  lemma MarkedIsRead(line: Line, rest: string)
    requires Canonical(line, true) && 3 + |Print(line)| < INI_MAX_LINE
    ensures ChunkLength(BOM + Print(line) + rest, INI_MAX_LINE) == 3 + |Print(line)|
  {
    hide NoComment, Trimmed;
    var whole := Print(line);
    var body := whole[..|whole| - 1];
    assert whole == body + "\n" && OneLine(body);
    assert BOM + whole + rest == (BOM + body) + "\n" + rest;
    ChunkIsLine(BOM + body, rest, INI_MAX_LINE);
  }

  /** A document behind a byte order mark is parsed as without it, if its first line still fits. */
  lemma MarkedDocument(accept: Handler, doc: seq<Line>)
    requires CanonicalFrom(doc, false, true) && doc != [] && 3 + |Print(doc[0])| < INI_MAX_LINE
    ensures ParseString(accept, BOM + PrintAll(doc)) ==
            (Wanted(doc, "", ""), FirstRejected(accept, doc, "", "", 0, []))
  {
    hide ParseLine, Print, Canonical, ChunkLength, Wanted, FirstRejected;
    PrintParse(accept, doc);
    var line, rest := Print(doc[0]), PrintAll(doc[1..]);
    var text := BOM + line + rest;
    assert BOM + PrintAll(doc) == text;
    MarkedIsRead(doc[0], rest);
    FirstLineUnmarked(doc[0]);
    PrintedIsNotEmpty(doc[0]);
    MarkIsSkipped(accept, line);
    assert text[..3 + |line|] == BOM + line && text[3 + |line|..] == rest;
    CanonicalLater(doc[0], true);
    LineIsRead(doc[0], rest);
    assert (line + rest)[..|line|] == line && (line + rest)[|line|..] == rest;
  }

  /** Whitespace is what it is in the C locale: the space and the characters 9 to 13. */
  lemma WhitespaceIsC(c: char)
    ensures IsSpace(c) <==> c as int in {32, 9, 10, 11, 12, 13}
  {
    assert '\t' as int == 9 && '\r' as int == 13 && ' ' as int == 32;
  }
}
