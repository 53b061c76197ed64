/**
 * The configuration parser as functions on strings: reading a text in bounded chunks, and what one
 * line does to the section, to the last name, to the calls of the handler and to the error line.
 */
module Ini {
  const INI_MAX_LINE: nat := 200
  const MAX_SECTION: nat := 50
  const MAX_NAME: nat := 50
  const INI_START_COMMENT_PREFIXES: string := ";#"
  const INI_INLINE_COMMENT_PREFIXES: string := ";"
  const BOM: string := [0xEF as char, 0xBB as char, 0xBF as char]

  /** One call of the handler. */
  datatype Call = Call(section: string, name: string, value: string)

  /** Whether the handler accepts a call after the calls it has seen. */
  type Handler = (seq<Call>, Call) -> bool

  /** A string that C can hold: no character in it ends it. */
  predicate IsCString(s: string) {
    '\0' !in s
  }

  predicate IsSpace(c: char) {
    c == ' ' || '\t' <= c <= '\r'
  }

  // ---- string helpers ----

  /** The text without the whitespace at its end. */
  function RStrip(s: string): (r: string)
    ensures |r| <= |s| && r == s[..|r|]
    ensures r != "" ==> !IsSpace(r[|r| - 1])
    ensures forall i | |r| <= i < |s| :: IsSpace(s[i])
  {
    if s != "" && IsSpace(s[|s| - 1]) then RStrip(s[..|s| - 1]) else s
  }

  /** The number of whitespace characters in front. */
  function Indent(s: string): (n: nat)
    ensures n <= |s|
    ensures n < |s| ==> !IsSpace(s[n])
    ensures forall i | 0 <= i < n :: IsSpace(s[i])
  {
    if s != "" && IsSpace(s[0]) then 1 + Indent(s[1..]) else 0
  }

  /** Whether a scan for `chars` stops at position `k`: at one of them, or at an inline comment. */
  predicate StopsAt(s: string, chars: string, k: nat)
    requires k < |s|
  {
    s[k] in chars || (0 < k && IsSpace(s[k - 1]) && s[k] in INI_INLINE_COMMENT_PREFIXES)
  }

  /** The first position from `k` on where a scan for `chars` stops, or the end. */
  function FindFrom(s: string, chars: string, k: nat): (n: nat)
    requires k <= |s|
    ensures k <= n <= |s|
    ensures n < |s| ==> StopsAt(s, chars, n)
    ensures forall i | k <= i < n :: !StopsAt(s, chars, i)
    decreases |s| - k
  {
    if k == |s| || StopsAt(s, chars, k) then k else FindFrom(s, chars, k + 1)
  }

  /** What fits into a buffer of `size` characters. */
  function Truncated(s: string, size: nat): (r: string)
    requires 0 < size
    ensures |r| < size
  {
    if |s| < size then s else s[..size - 1]
  }

  // ---- one line ----

  datatype State = State(section: string, prevName: string, lineno: nat, error: nat, calls: seq<Call>)

  const START: State := State("", "", 0, 0, [])

  /** Reports an error unless one was reported before. */
  function Fail(st: State): State {
    if st.error == 0 then st.(error := st.lineno) else st
  }

  /** Calls the handler. */
  function Handle(accept: Handler, st: State, call: Call): State {
    var st' := st.(calls := st.calls + [call]);
    if accept(st.calls, call) then st' else Fail(st')
  }

  function SectionLine(st: State, text: string): State
    requires text != ""
  {
    var end := FindFrom(text[1..], "]", 0);
    if end < |text| - 1 && text[1 + end] == ']' then
      st.(section := Truncated(text[1..][..end], MAX_SECTION), prevName := "")
    else
      Fail(st)
  }

  /** The value of a pair: what stands before an inline comment, without the whitespace around it. */
  function ValueOf(text: string): string {
    var value := text[..FindFrom(text, "", 0)];
    RStrip(value[Indent(value)..])
  }

  function PairLine(accept: Handler, st: State, text: string): State {
    var end := FindFrom(text, "=:", 0);
    if end < |text| && text[end] in "=:" then
      var name := RStrip(text[..end]);
      Handle(accept, st.(prevName := Truncated(name, MAX_NAME)), Call(st.section, name, ValueOf(text[end + 1..])))
    else
      Fail(st)
  }

  /** A byte order mark is skipped on the first line. */
  function SkipBom(lineno: nat, line: string): (n: nat)
    ensures n <= |line|
  {
    if lineno == 1 && BOM <= line then 3 else 0
  }

  /** A line without the whitespace around it, which began `offset` characters into the buffer. */
  function ParseText(accept: Handler, st: State, offset: nat, text: string): State {
    if text == "" || text[0] in INI_START_COMMENT_PREFIXES then st
    else if st.prevName != "" && offset > 0 then Handle(accept, st, Call(st.section, st.prevName, text))
    else if text[0] == '[' then SectionLine(st, text)
    else PairLine(accept, st, text)
  }

  /** One line as read, with its line end if it has one. */
  function ParseLine(accept: Handler, before: State, line: string): State {
    var st := before.(lineno := before.lineno + 1);
    var bom := SkipBom(st.lineno, line);
    var stripped := RStrip(line[bom..]);
    var indent := Indent(stripped);
    ParseText(accept, st, bom + indent, stripped[indent..])
  }

  // ---- the stream ----

  /** What the reader puts into a buffer of `num` characters: up to a line end, but no more than fits. */
  function ChunkLength(text: string, num: nat): (n: nat)
    ensures n <= |text| && (2 <= num ==> n < num)
    ensures text != "" && 2 <= num ==> 0 < n
    ensures forall i | 0 <= i < n - 1 :: text[i] != '\n'
    ensures 2 <= num ==> n == |text| || n == num - 1 || text[n - 1] == '\n'
  {
    if text == "" || num < 2 then 0
    else if text[0] == '\n' || num == 2 then 1
    else 1 + ChunkLength(text[1..], num - 1)
  }

  function ParseFrom(accept: Handler, st: State, text: string): State
    decreases |text|
  {
    if text == "" then st
    else
      var n := ChunkLength(text, INI_MAX_LINE);
      ParseFrom(accept, ParseLine(accept, st, text[..n]), text[n..])
  }

  /** The calls of the handler, in order, and the line of the first error, 0 if there is none. */
  function ParseString(accept: Handler, text: string): (seq<Call>, nat) {
    var st := ParseFrom(accept, START, text);
    (st.calls, st.error)
  }
}
