/** Long header lines and long bodies of an outgoing mail
    (app/modules/smtp.go). Characters are octets. */
module HeaderFolding {
  import opened Base64
  import opened Options

  const MAX_LINE := 998
  const FOLD_AT := 78
  const BASE64_LINE := 76
  const CRLF := "\r\n"

  // --- Unfolding, section 2.2.3 of RFC 5322 ---

  predicate IsWsp(c: char) {
    c == ' ' || c == '\t'
  }

  /** Every CRLF that white space follows goes. */
  function Unfold(s: string): string {
    if |s| >= 3 && s[0] == '\r' && s[1] == '\n' && IsWsp(s[2]) then Unfold(s[2..])
    else if s == "" then ""
    else [s[0]] + Unfold(s[1..])
  }

  /** Neither CR nor LF, as no header name or value the source renders holds. */
  predicate OneLine(s: string) {
    '\r' !in s && '\n' !in s
  }

  lemma {:induction false} UnfoldOneLine(a: string, rest: string)
    requires OneLine(a)
    ensures Unfold(a + rest) == a + Unfold(rest)
  {
    if a == "" {
      assert a + rest == rest;
    } else {
      assert (a + rest)[1..] == a[1..] + rest;
      UnfoldOneLine(a[1..], rest);
    }
  }

  lemma UnfoldBreak(b: string)
    requires b != "" && IsWsp(b[0])
    ensures Unfold(CRLF + b) == Unfold(b)
  {
  }

  // --- Folding ---

  /** The lines, one after the other, each ending in CRLF. */
  function Rendered(lines: seq<string>): string {
    if lines == [] then "" else Rendered(lines[..|lines| - 1]) + lines[|lines| - 1] + CRLF
  }

  function Joined(lines: seq<string>): string {
    if lines == [] then "" else Joined(lines[..|lines| - 1]) + lines[|lines| - 1]
  }

  /** No longer than FOLD_AT, or without a space to fold at. */
  predicate Fits(line: string) {
    |line| <= FOLD_AT || forall i :: 1 <= i < |line| ==> line[i] != ' '
  }

  /** The lines hold the text between them, each continuation starts with a
      space and every line fits. */
  ghost predicate IsFolding(lines: seq<string>, text: string) {
    && Joined(lines) == text
    && (forall i :: 0 <= i < |lines| ==> lines[i] != "" && Fits(lines[i]))
    && (forall i :: 1 <= i < |lines| ==> lines[i][0] == ' ')
  }

  /** Unfolding what was rendered joins the lines again. */
  lemma {:induction false} UnfoldRendered(lines: seq<string>, rest: string)
    requires (forall i :: 0 <= i < |lines| ==> lines[i] != "" && OneLine(lines[i]))
    requires (forall i :: 1 <= i < |lines| ==> lines[i][0] == ' ') && rest != "" && (lines != [] ==> rest[0] == ' ')
    ensures Unfold(Rendered(lines) + rest) == Joined(lines) + Unfold(rest)
  {
    if lines == [] {
      assert Rendered(lines) + rest == rest;
    } else {
      var n := |lines| - 1;
      var last := lines[n];
      var tail := last + (CRLF + rest);
      UnfoldRendered(lines[..n], tail);
      assert Rendered(lines) + rest == Rendered(lines[..n]) + tail;
      UnfoldOneLine(last, CRLF + rest);
      UnfoldBreak(rest);
    }
  }

  /** The last space of the text, or none. */
  method LastIndexOfSpace(s: string) returns (i: int)
    ensures -1 <= i < |s| && (i >= 0 ==> s[i] == ' ')
    ensures forall k :: i < k < |s| ==> s[k] != ' '
  {
    i := |s| - 1;
    while i >= 0 && s[i] != ' '
      invariant -1 <= i < |s| && forall k :: i < k < |s| ==> s[k] != ' '
    {
      i := i - 1;
    }
  }

  method IndexOfSpace(s: string) returns (i: int)
    ensures -1 <= i < |s| && (i >= 0 ==> s[i] == ' ')
    ensures i >= 0 ==> forall k :: 0 <= k < i ==> s[k] != ' '
    ensures i < 0 ==> forall k :: 0 <= k < |s| ==> s[k] != ' '
  {
    for j := 0 to |s|
      invariant forall k :: 0 <= k < j ==> s[k] != ' '
    {
      if s[j] == ' ' {
        return j;
      }
    }
    return -1;
  }

  /** Where the text is folded next: at a space behind its first character,
      the last one that leaves a line of at most FOLD_AT, else the first one. */
  method Cut(line: string) returns (cut: int)
    requires |line| > FOLD_AT
    ensures 0 <= cut < |line|
    ensures cut > 0 ==> line[cut] == ' ' && Fits(line[..cut]) && forall i :: cut < i <= FOLD_AT ==> line[i] != ' '
    ensures cut == 0 ==> Fits(line)
  {
    var i := LastIndexOfSpace(line[1..FOLD_AT + 1]);
    cut := i + 1;
    if cut == 0 {
      var next := IndexOfSpace(line[1..]);
      if next < 0 {
        assert forall k :: 1 <= k < |line| ==> line[k] == line[1..][k - 1];
        return;
      }
      cut := next + 1;
      assert forall k :: 1 <= k < cut ==> line[..cut][k] == line[1..][k - 1];
    }
  }

  /** Folding so far: the lines written and the text left. */
  ghost predicate Folding(out: string, lines: seq<string>, line: string, text: string) {
    && out == Rendered(lines) && Joined(lines) + line == text
    && line != "" && OneLine(line) && (lines != [] ==> line[0] == ' ')
    && (forall i :: 0 <= i < |lines| ==> lines[i] != "" && OneLine(lines[i]) && Fits(lines[i]))
    && (forall i :: 1 <= i < |lines| ==> lines[i][0] == ' ')
  }

  lemma FoldStep(out: string, lines: seq<string>, line: string, text: string, cut: nat)
    requires Folding(out, lines, line, text)
    requires 0 < cut < |line| && line[cut] == ' ' && Fits(line[..cut])
    ensures Folding(out + line[..cut] + CRLF, lines + [line[..cut]], line[cut..], text)
  {
  }

  lemma FoldEnd(out: string, lines: seq<string>, line: string, text: string)
    requires Folding(out, lines, line, text) && Fits(line)
    ensures out + line + CRLF == Rendered(lines + [line])
    ensures IsFolding(lines + [line], text)
    ensures Unfold(out + line + CRLF) == text + CRLF
  {
    OneMoreLine(lines, line);
    UnfoldRendered(lines, line + CRLF);
    UnfoldOneLine(line, CRLF);
    assert Unfold(CRLF) == CRLF;
    assert out + line + CRLF == out + (line + CRLF);
    assert Joined(lines) + (line + CRLF) == text + CRLF;
  }

  /** One header line. Only a line over the limit is folded; unfolding gives
      the line back either way. */
  method HeaderLine(name: string, value: string) returns (out: string, ghost lines: seq<string>)
    requires OneLine(name) && OneLine(value)
    ensures Unfold(out) == name + ": " + value + CRLF
    ensures out == Rendered(lines)
    ensures if |name + ": " + value| <= MAX_LINE then lines == [name + ": " + value] else IsFolding(lines, name + ": " + value)
  {
    var line := name + ": " + value;
    ghost var text := line;
    if |line| <= MAX_LINE {
      lines := [line];
      UnfoldOneLine(line, CRLF);
      assert Unfold(CRLF) == CRLF;
      assert lines[..0] == [];
      return line + CRLF, lines;
    }
    out := "";
    lines := [];
    while |line| > FOLD_AT
      invariant Folding(out, lines, line, text)
      invariant |line| > FOLD_AT || Fits(line)
      decreases |line|
    {
      var cut := Cut(line);
      if cut == 0 {
        break;
      }
      FoldStep(out, lines, line, text, cut);
      out := out + line[..cut] + CRLF;
      lines := lines + [line[..cut]];
      line := line[cut..];
    }
    FoldEnd(out, lines, line, text);
    out := out + line + CRLF;
    lines := lines + [line];
  }

  lemma OneMoreLine(lines: seq<string>, line: string)
    ensures Rendered(lines + [line]) == Rendered(lines) + line + CRLF
    ensures Joined(lines + [line]) == Joined(lines) + line
  {
  }

  // --- Bodies ---

  /** The lines of a body, split at every CRLF. */
  function Lines(body: string): (lines: seq<string>)
    ensures lines != []
  {
    if |body| >= 2 && body[0] == '\r' && body[1] == '\n' then [""] + Lines(body[2..])
    else if body == "" then [""]
    else
      var rest := Lines(body[1..]);
      [[body[0]] + rest[0]] + rest[1..]
  }

  /** A body that may be sent as it is. */
  ghost predicate Sendable(body: string) {
    '\0' !in body && forall line :: line in Lines(body) ==> |line| <= MAX_LINE
  }

  method NeedsBase64(body: string) returns (needed: bool)
    ensures needed <==> !Sendable(body)
  {
    var lines := Lines(body);
    for i := 0 to |lines|
      invariant forall k :: 0 <= k < i ==> |lines[k]| <= MAX_LINE
    {
      if |lines[i]| > MAX_LINE {
        assert lines[i] in Lines(body);
        return true;
      }
    }
    return '\0' in body;
  }

  lemma {:induction false} LinesOfLine(line: string, rest: string)
    requires OneLine(line)
    ensures Lines(line + CRLF + rest) == [line] + Lines(rest)
  {
    if line == "" {
      assert (line + CRLF + rest)[2..] == rest;
    } else {
      var s := line + CRLF + rest;
      assert s[1..] == line[1..] + CRLF + rest && s[0] == line[0];
      LinesOfLine(line[1..], rest);
      assert Lines(s) == [[s[0]] + Lines(s[1..])[0]] + Lines(s[1..])[1..];
      assert [line[0]] + line[1..] == line;
    }
  }

  lemma RenderedLast(lines: seq<string>, rest: string)
    requires lines != []
    ensures Rendered(lines) + rest == Rendered(lines[..|lines| - 1]) + (lines[|lines| - 1] + CRLF + rest)
  {
    Regroup(Rendered(lines[..|lines| - 1]), lines[|lines| - 1], CRLF, rest);
  }

  lemma Regroup(a: string, b: string, c: string, d: string)
    ensures a + b + c + d == a + (b + c + d)
  {
  }

  lemma Prepend(before: seq<string>, line: string, after: seq<string>)
    ensures before + ([line] + after) == before + [line] + after
  {
  }

  /** Splitting what was rendered gives the lines back. */
  lemma {:induction false} LinesOfRendered(lines: seq<string>, rest: string)
    requires forall i :: 0 <= i < |lines| ==> OneLine(lines[i])
    ensures Lines(Rendered(lines) + rest) == lines + Lines(rest)
  {
    if lines == [] {
      assert Rendered(lines) + rest == rest;
    } else {
      var n := |lines| - 1;
      var before, last := lines[..n], lines[n];
      RenderedLast(lines, rest);
      LinesOfRendered(before, last + CRLF + rest);
      LinesOfLine(last, rest);
      Prepend(before, last, Lines(rest));
      assert before + [last] == lines;
    }
  }

  lemma {:induction false} RenderedWithout(c: char, lines: seq<string>)
    requires c != '\r' && c != '\n' && c !in Joined(lines)
    ensures c !in Rendered(lines)
  {
    if lines != [] {
      RenderedWithout(c, lines[..|lines| - 1]);
    }
  }

  lemma {:induction false} JoinedOneLine(lines: seq<string>, i: nat)
    requires OneLine(Joined(lines)) && i < |lines|
    ensures OneLine(lines[i])
  {
    if i < |lines| - 1 {
      JoinedOneLine(lines[..|lines| - 1], i);
    }
  }

  predicate Full(lines: seq<string>, encoded: string) {
    && lines != [] && Joined(lines) == encoded
    && (forall i :: 0 <= i < |lines| - 1 ==> |lines[i]| == BASE64_LINE)
    && |lines[|lines| - 1]| <= BASE64_LINE && (encoded != "" ==> lines[|lines| - 1] != "")
  }

  /** The encoded text in lines of BASE64_LINE: nothing lost, all but the last
      one full, and the last CRLF ends the text. */
  predicate IsWrapped(out: string, encoded: string) {
    var lines := Lines(out);
    lines[|lines| - 1] == "" && Full(lines[..|lines| - 1], encoded)
  }

  /** The encoding holds neither CR nor LF. */
  method WrapBase64(encoded: string) returns (out: string)
    requires OneLine(encoded)
    ensures IsWrapped(out, encoded)
    ensures '\0' !in encoded ==> Sendable(out)
  {
    var enc := encoded;
    out := "";
    ghost var lines: seq<string> := [];
    while |enc| > BASE64_LINE
      invariant out == Rendered(lines) && Joined(lines) + enc == encoded
      invariant forall i :: 0 <= i < |lines| ==> |lines[i]| == BASE64_LINE
      invariant encoded != "" ==> enc != ""
      decreases |enc|
    {
      OneMoreLine(lines, enc[..BASE64_LINE]);
      assert enc == enc[..BASE64_LINE] + enc[BASE64_LINE..];
      out := out + enc[..BASE64_LINE] + CRLF;
      lines := lines + [enc[..BASE64_LINE]];
      enc := enc[BASE64_LINE..];
    }
    OneMoreLine(lines, enc);
    out := out + enc + CRLF;
    lines := lines + [enc];
    WrappedLines(lines, encoded);
  }

  lemma LinesOfWrapped(lines: seq<string>, encoded: string)
    requires Joined(lines) == encoded && OneLine(encoded)
    ensures Lines(Rendered(lines)) == lines + [""]
  {
    forall i | 0 <= i < |lines|
      ensures OneLine(lines[i])
    {
      JoinedOneLine(lines, i);
    }
    LinesOfRendered(lines, "");
    assert Rendered(lines) + "" == Rendered(lines);
  }

  lemma WrappedLines(lines: seq<string>, encoded: string)
    requires Full(lines, encoded) && OneLine(encoded)
    ensures IsWrapped(Rendered(lines), encoded)
    ensures '\0' !in encoded ==> Sendable(Rendered(lines))
  {
    LinesOfWrapped(lines, encoded);
    assert (lines + [""])[..|lines|] == lines;
    if '\0' !in encoded {
      RenderedWithout('\0', lines);
    }
  }

  lemma JoinedWrapped(out: string, encoded: string)
    requires IsWrapped(out, encoded)
    ensures Joined(Lines(out)) == encoded
  {
    var lines := Lines(out);
    assert lines == lines[..|lines| - 1] + [""];
  }

  /** Whatever the body, what is sent has no line over the limit and no NUL,
      and it is the body or text in full lines that decodes to the body. */
  method BodyPart(body: string) returns (out: string)
    requires Octets(body)
    ensures Sendable(out)
    ensures if Sendable(body) then out == body else IsWrapped(out, Encode(body)) && Decode(Joined(Lines(out))) == Some(body)
  {
    var needed := NeedsBase64(body);
    if !needed {
      return body;
    }
    EncodeIsPrintable(body);
    DecodeEncode(body);
    out := WrapBase64(Encode(body));
    JoinedWrapped(out, Encode(body));
  }
}
