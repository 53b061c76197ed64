/**
 * The configuration parser on its character buffers: strings end at a zero character, pointers are
 * positions, and lines are cut and trimmed in place.
 */
module IniProcess {
  import opened Ini

  /** The buffer holds the string `s` at position `p`. */
  ghost predicate Holds(a: array<char>, p: nat, s: string)
    reads a
  {
    p + |s| < a.Length && a[p..p + |s|] == s && a[p + |s|] == '\0' && IsCString(s)
  }

  /** Only the characters from `from` to `to` differ from `before`. */
  twostate predicate OnlyChanged(a: array<char>, from: nat, to: nat)
    reads a
  {
    forall i | 0 <= i < a.Length && !(from <= i < to) :: a[i] == old(a[i])
  }

  lemma HoldsAt(a: array<char>, p: nat, s: string, k: nat)
    requires Holds(a, p, s) && k <= |s|
    ensures p + k < a.Length
    ensures k < |s| ==> a[p + k] == s[k] != '\0'
    ensures k == |s| ==> a[p + k] == '\0'
    ensures Holds(a, p + k, s[k..])
  {
    if k < |s| {
      assert a[p..p + |s|][k] == s[k];
      assert s[k] in s;
    }
    assert a[p + k..p + |s|] == a[p..p + |s|][k..];
  }

  /** Cuts a string in two by a zero. */
  method CutAt(a: array<char>, p: nat, k: nat, ghost s: string)
    requires Holds(a, p, s) && k < |s|
    modifies a
    ensures Holds(a, p, s[..k]) && Holds(a, p + k + 1, s[k + 1..]) && OnlyChanged(a, p, p + |s|)
  {
    ghost var before := a[p..p + |s|];
    a[p + k] := '\0';
    assert a[p..p + |s|] == before[k := '\0'] == s[k := '\0'];
    assert a[p..p + k] == a[p..p + |s|][..k] == s[..k];
    assert a[p + k + 1..p + |s|] == a[p..p + |s|][k + 1..] == s[k + 1..];
  }

  method Length(a: array<char>, p: nat, ghost s: string) returns (n: nat)
    requires Holds(a, p, s)
    ensures n == |s|
  {
    HoldsAt(a, p, s, 0);
    n := 0;
    while a[p + n] != '\0'
      invariant n <= |s|
      invariant p + n < a.Length
      decreases |s| - n
    {
      HoldsAt(a, p, s, n);
      n := n + 1;
      HoldsAt(a, p, s, n);
    }
    HoldsAt(a, p, s, n);
  }

  method StringAt(a: array<char>, p: nat, ghost s: string) returns (r: string)
    requires Holds(a, p, s)
    ensures r == s
  {
    var n := Length(a, p, s);
    r := a[p..p + n];
  }

  /** Cuts the whitespace off the end of the string. */
  method RStripAt(a: array<char>, p: nat, ghost s: string)
    requires Holds(a, p, s)
    modifies a
    ensures Holds(a, p, RStrip(s)) && OnlyChanged(a, p, p + |s|)
  {
    var q := Length(a, p, s);
    q := p + q;
    ghost var t := s;
    assert s[..|s|] == s;
    while p < q
      invariant p <= q == p + |t| <= p + |s|
      invariant Holds(a, p, t) && RStrip(t) == RStrip(s)
      invariant OnlyChanged(a, p, p + |s|)
    {
      HoldsAt(a, p, t, |t| - 1);
      q := q - 1;
      if !IsSpace(a[q]) {
        break;
      }
      a[q] := '\0';
      assert a[p..p + |t| - 1] == t[..|t| - 1];
      t := t[..|t| - 1];
    }
  }

  method LSkipAt(a: array<char>, p: nat, ghost s: string) returns (q: nat)
    requires Holds(a, p, s)
    ensures q == p + Indent(s) && Holds(a, q, s[Indent(s)..])
  {
    hide Indent, Holds;
    q := p;
    ghost var n := Indent(s);
    HoldsAt(a, p, s, 0);
    while a[q] != '\0' && IsSpace(a[q])
      invariant p <= q <= p + n
      invariant q < a.Length
      invariant a[q] == if q - p < |s| then s[q - p] else '\0'
      invariant q - p < |s| ==> s[q - p] != '\0'
      decreases p + n - q
    {
      q := q + 1;
      HoldsAt(a, p, s, q - p);
    }
    HoldsAt(a, p, s, n);
  }

  /** The first of `chars` or an inline comment, or the end of the string. */
  method FindAt(a: array<char>, p: nat, chars: string, ghost s: string) returns (q: nat)
    requires Holds(a, p, s)
    ensures q == p + FindFrom(s, chars, 0)
  {
    hide FindFrom, Holds;
    var wasSpace := false;
    q := p;
    ghost var n := FindFrom(s, chars, 0);
    HoldsAt(a, p, s, 0);
    while a[q] != '\0' && a[q] !in chars && !(wasSpace && a[q] in INI_INLINE_COMMENT_PREFIXES)
      invariant p <= q <= p + n
      invariant q < a.Length
      invariant a[q] == if q - p < |s| then s[q - p] else '\0'
      invariant q - p < |s| ==> s[q - p] != '\0'
      invariant wasSpace == (p < q && IsSpace(s[q - p - 1]))
      invariant q - p < |s| ==> (StopsAt(s, chars, q - p) <==>
                  a[q] in chars || (wasSpace && a[q] in INI_INLINE_COMMENT_PREFIXES))
      decreases p + n - q
    {
      wasSpace := IsSpace(a[q]);
      q := q + 1;
      HoldsAt(a, p, s, q - p);
    }
  }

  /** Copies what fits and fills the rest with zeros. */
  method StrNCpy0(dest: array<char>, src: array<char>, p: nat, ghost s: string)
    requires 0 < dest.Length && dest != src && Holds(src, p, s)
    modifies dest
    ensures Holds(dest, 0, Truncated(s, dest.Length))
  {
    var i := 0;
    HoldsAt(src, p, s, 0);
    while i < dest.Length - 1 && src[p + i] != '\0'
      invariant i <= dest.Length - 1 && i <= |s| && p + i < src.Length
      invariant dest[..i] == s[..i]
    {
      HoldsAt(src, p, s, i);
      dest[i] := src[p + i];
      i := i + 1;
      HoldsAt(src, p, s, i);
    }
    HoldsAt(src, p, s, i);
    ghost var n := i;
    while i < dest.Length - 1
      invariant n <= i <= dest.Length - 1
      invariant dest[..n] == s[..n]
      invariant forall k | n <= k < i :: dest[k] == '\0'
    {
      dest[i] := '\0';
      i := i + 1;
    }
    dest[dest.Length - 1] := '\0';
    assert s[..n] == Truncated(s, dest.Length);
    assert dest[0..n] == dest[..n];
  }

  lemma ChunkStep(text: string, num: nat)
    ensures ChunkLength(text, num) ==
            if text == "" || num < 2 then 0
            else if text[0] == '\n' then 1
            else 1 + ChunkLength(text[1..], num - 1)
  {
  }

  lemma RestOf(text: string, pos: nat)
    requires pos <= |text|
    ensures text[pos..] == "" <==> pos == |text|
    ensures pos < |text| ==> text[pos..][0] == text[pos] && text[pos..][1..] == text[pos + 1..]
  {
  }

  lemma SplitRest(text: string, pos: nat, n: nat)
    requires pos + n <= |text|
    ensures text[pos..][..n] == text[pos..pos + n] && text[pos..][n..] == text[pos + n..]
  {
  }

  /** Reads up to a line end, or as much as the buffer holds. */
  method ReadLine(a: array<char>, text: string, pos: nat) returns (n: nat)
    requires 2 <= a.Length && pos < |text| && IsCString(text)
    modifies a
    ensures n == ChunkLength(text[pos..], a.Length) && pos + n <= |text|
    ensures Holds(a, 0, text[pos..pos + n])
  {
    hide ChunkLength;
    var num, left := a.Length, |text| - pos;
    n := 0;
    ghost var goal := ChunkLength(text[pos..], a.Length);
    ghost var ended := false;
    while num > 1 && left != 0
      invariant 0 <= left == |text| - pos - n && 1 <= num == a.Length - n
      invariant n + ChunkLength(text[pos + n..], num) == goal
      invariant a[..n] == text[pos..pos + n]
    {
      RestOf(text, pos + n);
      ChunkStep(text[pos + n..], num);
      var c := text[pos + n];
      a[n] := c;
      left := left - 1;
      n := n + 1;
      if c == '\n' {
        ended := true;
        break;
      }
      num := num - 1;
    }
    if !ended {
      RestOf(text, pos + n);
      ChunkStep(text[pos + n..], num);
    }
    a[n] := '\0';
    assert a[0..0 + n] == a[..n] == text[pos..pos + n];
  }

  /** The parser's buffers and what it has found so far. */
  class Parser {
    const line: array<char>
    const section: array<char>
    const prevName: array<char>
    var lineno: nat
    var error: nat
    var calls: seq<Call>
    ghost var sectionText: string
    ghost var nameText: string

    ghost predicate Valid()
      reads this, line, section, prevName
    {
      && line.Length == INI_MAX_LINE && section.Length == MAX_SECTION && prevName.Length == MAX_NAME
      && line != section && line != prevName && section != prevName
      && Holds(section, 0, sectionText) && Holds(prevName, 0, nameText)
    }

    ghost function Abs(): State
      reads this
    {
      State(sectionText, nameText, lineno, error, calls)
    }

    constructor ()
      ensures Valid() && Abs() == START && fresh(line) && fresh(section) && fresh(prevName)
    {
      line := new char[INI_MAX_LINE](_ => '\0');
      section := new char[MAX_SECTION](_ => '\0');
      prevName := new char[MAX_NAME](_ => '\0');
      lineno, error, calls := 0, 0, [];
      sectionText, nameText := "", "";
    }

    method ReportError()
      modifies this`error
      ensures Abs() == Ini.Fail(old(Abs()))
    {
      if error == 0 {
        error := lineno;
      }
    }

    method CallHandler(accept: Handler, name: string, value: string)
      requires Valid()
      modifies this`calls, this`error
      ensures Valid() && Abs() == Handle(accept, old(Abs()), Call(sectionText, name, value))
    {
      var current := StringAt(section, 0, sectionText);
      var call := Call(current, name, value);
      var accepted := accept(calls, call);
      calls := calls + [call];
      if !accepted {
        ReportError();
      }
    }

    /** A "[section]" line. */
    method HandleSection(start: nat, ghost text: string)
      requires Valid() && Holds(line, start, text) && text != "" && text[0] == '['
      modifies this`error, this`sectionText, this`nameText, line, section, prevName
      ensures Valid() && Abs() == SectionLine(old(Abs()), text)
    {
      hide Holds, FindFrom;
      HoldsAt(line, start, text, 1);
      ghost var inner := text[1..];
      var end := FindAt(line, start + 1, "]", inner);
      ghost var k := FindFrom(inner, "]", 0);
      HoldsAt(line, start + 1, inner, k);
      if line[end] == ']' {
        OpenSection(start + 1, end, inner);
      } else {
        ReportError();
      }
    }

    method OpenSection(start: nat, end: nat, ghost text: string)
      requires Valid() && Holds(line, start, text) && start <= end < start + |text|
      modifies this`sectionText, this`nameText, line, section, prevName
      ensures Valid()
      ensures sectionText == Truncated(text[..end - start], MAX_SECTION) && nameText == ""
    {
      hide Holds, OnlyChanged;
      CutAt(line, start, end - start, text);
      StrNCpy0(section, line, start, text[..end - start]);
      sectionText := Truncated(text[..end - start], MAX_SECTION);
      ForgetName();
    }

    method ForgetName()
      requires prevName.Length == MAX_NAME
      modifies prevName, this`nameText
      ensures Holds(prevName, 0, "") && nameText == ""
    {
      prevName[0] := '\0';
      nameText := "";
    }

    /** Trims a name; the value that stands behind it is kept. */
    method CutName(start: nat, ghost name: string, behind: nat, ghost value: string)
      requires Holds(line, start, name) && Holds(line, behind, value) && start + |name| <= behind
      modifies line
      ensures Holds(line, start, RStrip(name)) && Holds(line, behind, value)
    {
      RStripAt(line, start, name);
      assert line[behind..behind + |value|] == old(line[behind..behind + |value|]);
    }

    /** Cuts an inline comment off and trims what is left, the value of a pair; the name before it is kept. */
    method CutValue(start: nat, ghost text: string, before: nat, ghost name: string) returns (value: nat)
      requires Holds(line, start, text) && Holds(line, before, name) && before + |name| < start
      modifies line
      ensures Holds(line, value, ValueOf(text)) && Holds(line, before, name)
    {
      value := TrimValue(start, text);
      assert line[before..before + |name|] == old(line[before..before + |name|]);
    }

    method TrimValue(start: nat, ghost text: string) returns (value: nat)
      requires Holds(line, start, text)
      modifies line
      ensures Holds(line, value, ValueOf(text)) && OnlyChanged(line, start, start + |text|)
    {
      hide Holds, FindFrom;
      var end := FindAt(line, start, "", text);
      ghost var k := FindFrom(text, "", 0);
      HoldsAt(line, start, text, k);
      if line[end] != '\0' {
        CutAt(line, start, end - start, text);
      }
      assert text[..|text|] == text;
      value := LSkipAt(line, start, text[..k]);
      RStripAt(line, value, text[..k][Indent(text[..k])..]);
    }

    /** A "name=value" or "name:value" line. */
    method HandlePair(accept: Handler, start: nat, ghost text: string)
      requires Valid() && Holds(line, start, text)
      modifies this`error, this`calls, this`nameText, line, prevName
      ensures Valid() && Abs() == PairLine(accept, old(Abs()), text)
    {
      hide Holds, FindFrom, RStrip, ValueOf, Handle, Truncated;
      var end := FindAt(line, start, "=:", text);
      ghost var k := FindFrom(text, "=:", 0);
      HoldsAt(line, start, text, k);
      if line[end] == '=' || line[end] == ':' {
        TakePair(accept, start, end, text);
      } else {
        ReportError();
      }
    }

    method TakePair(accept: Handler, start: nat, end: nat, ghost text: string)
      requires Valid() && Holds(line, start, text) && start <= end < start + |text|
      modifies this`error, this`calls, this`nameText, line, prevName
      ensures Valid()
      ensures var name := RStrip(text[..end - start]);
              Abs() == Handle(accept, old(Abs()).(prevName := Truncated(name, MAX_NAME)),
                               Call(sectionText, name, ValueOf(text[end - start + 1..])))
    {
      hide Holds, OnlyChanged, RStrip, ValueOf, Handle, Truncated;
      CutAt(line, start, end - start, text);
      ghost var name, rest := RStrip(text[..end - start]), text[end - start + 1..];
      CutName(start, text[..end - start], end + 1, rest);
      var value := CutValue(end + 1, rest, start, name);
      StrNCpy0(prevName, line, start, name);
      nameText := Truncated(name, MAX_NAME);
      var nameCopy := StringAt(line, start, name);
      var valueCopy := StringAt(line, value, ValueOf(rest));
      CallHandler(accept, nameCopy, valueCopy);
    }

    /** Skips a byte order mark at the beginning of the first line. */
    method FindBom(ghost text: string) returns (start: nat)
      requires Valid() && Holds(line, 0, text)
      ensures start == SkipBom(lineno, text)
    {
      start := 0;
      if lineno == 1 && line[0] == BOM[0] && line[1] == BOM[1] && line[2] == BOM[2] {
        start := 3;
      }
    }

    /** Finds the text of a line, without the whitespace around it. */
    method StripLine(ghost text: string) returns (start: nat)
      requires Valid() && Holds(line, 0, text)
      modifies line
      ensures var bom := SkipBom(lineno, text);
              var stripped := RStrip(text[bom..]);
              start == bom + Indent(stripped) && Holds(line, start, stripped[Indent(stripped)..])
    {
      hide Holds, RStrip, Indent;
      start := FindBom(text);
      HoldsAt(line, 0, text, start);
      RStripAt(line, start, text[start..]);
      start := LSkipAt(line, start, RStrip(text[start..]));
    }

    /** What a line asks for. */
    method HandleText(accept: Handler, start: nat, ghost text: string)
      requires Valid() && Holds(line, start, text)
      modifies this`error, this`calls, this`sectionText, this`nameText, line, section, prevName
      ensures Valid() && Abs() == ParseText(accept, old(Abs()), start, text)
    {
      hide Holds, SectionLine, PairLine, Handle;
      HoldsAt(line, start, text, 0);
      HoldsAt(prevName, 0, nameText, 0);
      if line[start] == '\0' || line[start] in INI_START_COMMENT_PREFIXES {
      } else if prevName[0] != '\0' && start > 0 {
        var name := StringAt(prevName, 0, nameText);
        var value := StringAt(line, start, text);
        CallHandler(accept, name, value);
      } else if line[start] == '[' {
        HandleSection(start, text);
      } else {
        HandlePair(accept, start, text);
      }
    }

    /** A line that is in the buffer. */
    method HandleLine(accept: Handler, ghost text: string)
      requires Valid() && Holds(line, 0, text)
      modifies this, line, section, prevName
      ensures Valid() && Abs() == ParseLine(accept, old(Abs()), text)
    {
      hide Holds, RStrip, Indent, ParseText, SkipBom;
      lineno := lineno + 1;
      var start := StripLine(text);
      ghost var stripped := RStrip(text[SkipBom(lineno, text)..]);
      HandleText(accept, start, stripped[Indent(stripped)..]);
    }

    /** The loop over the lines of a text. */
    method ParseStream(accept: Handler, text: string)
      requires Valid() && Abs() == START && IsCString(text)
      modifies this, line, section, prevName
      ensures (calls, error) == ParseString(accept, text)
    {
      hide ParseLine, ChunkLength, Holds;
      var pos := 0;
      assert text[0..] == text;
      while pos < |text|
        invariant pos <= |text| && Valid()
        invariant ParseFrom(accept, Abs(), text[pos..]) == ParseFrom(accept, START, text)
      {
        ghost var rest := text[pos..];
        var n := ReadLine(line, text, pos);
        SplitRest(text, pos, n);
        HandleLine(accept, text[pos..pos + n]);
        pos := pos + n;
      }
    }
  }
}
