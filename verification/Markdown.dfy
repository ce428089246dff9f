/** `normalize_markdown_report`: line clean-up of a report, and when a second pass changes nothing. */
module Markdown {
  import opened Text

  /** `text.replace("\r\n", "\n").replace("\r", "\n")` */
  function UnixLines(text: string): string {
    if text == "" then ""
    else if text[0] == '\r' then "\n" + UnixLines(if |text| > 1 && text[1] == '\n' then text[2..] else text[1..])
    else [text[0]] + UnixLines(text[1..])
  }

  /** `text.split("\n")` */
  function SplitLines(text: string): (lines: seq<string>)
    ensures |lines| > 0
  {
    if text == "" then [""]
    else
      var rest := SplitLines(text[1..]);
      if text[0] == '\n' then [""] + rest else [[text[0]] + rest[0]] + rest[1..]
  }

  function JoinLines(lines: seq<string>): string {
    Join(lines, "\n")
  }

  /** The line is bold text and nothing else: two stars, at least one character, two stars. */
  predicate IsBold(line: string) {
    |line| >= 5 && line[..2] == "**" && line[|line| - 2..] == "**"
  }

  function CleanLine(raw: string): string {
    var line := Strip(raw);
    if IsBold(line) then "## " + Strip(line[2..|line| - 2]) else line
  }

  /** The cleaned lines after one more raw line. */
  function AddLine(cleaned: seq<string>, raw: string): seq<string> {
    if Strip(raw) != "" then cleaned + [CleanLine(raw)]
    else if cleaned != [] && cleaned[|cleaned| - 1] != "" then cleaned + [""]
    else cleaned
  }

  function CleanLines(lines: seq<string>): seq<string> {
    if |lines| == 0 then [] else AddLine(CleanLines(lines[..|lines| - 1]), lines[|lines| - 1])
  }

  function DropTrailingBlank(lines: seq<string>): seq<string> {
    if lines != [] && lines[|lines| - 1] == "" then DropTrailingBlank(lines[..|lines| - 1]) else lines
  }

  function Cleaned(text: string): seq<string> {
    var normalized := Strip(UnixLines(text));
    if normalized == "" then [] else DropTrailingBlank(CleanLines(SplitLines(normalized)))
  }

  function Normalized(text: string): string {
    JoinLines(Cleaned(text))
  }

  /** The loop over the raw lines. */
  method CleanAll(lines: seq<string>) returns (cleaned: seq<string>)
    ensures cleaned == CleanLines(lines)
  {
    cleaned := [];
    for i := 0 to |lines|
      invariant cleaned == CleanLines(lines[..i])
    {
      hide Strip;
      assert lines[..i + 1][..i] == lines[..i];
      var line := Strip(lines[i]);
      if line == "" {
        if cleaned != [] && cleaned[|cleaned| - 1] != "" {
          cleaned := cleaned + [""];
        }
      } else {
        if IsBold(line) {
          line := "## " + Strip(line[2..|line| - 2]);
        }
        cleaned := cleaned + [line];
      }
    }
    assert lines[..|lines|] == lines;
  }

  method NormalizeMarkdownReport(text: string) returns (report: string)
    ensures report == Normalized(text)
  {
    hide Strip, CleanLines, SplitLines;
    NothingToNormalize();
    if text == "" {
      return "";
    }
    var normalized := Strip(UnixLines(text));
    if normalized == "" {
      return "";
    }
    var cleaned := CleanAll(SplitLines(normalized));
    ghost var all := cleaned;
    while cleaned != [] && cleaned[|cleaned| - 1] == ""
      invariant DropTrailingBlank(cleaned) == DropTrailingBlank(all)
    {
      cleaned := cleaned[..|cleaned| - 1];
    }
    return JoinLines(cleaned);
  }

  lemma NothingToNormalize()
    ensures Normalized("") == ""
  {
  }

  // ---------------------------------------------------------------------------------
  // What comes out

  /** No blank line at either end and no two in a row. */
  ghost predicate Tidy(lines: seq<string>) {
    && (lines != [] ==> lines[0] != "" && lines[|lines| - 1] != "")
    && NoDoubleBlank(lines)
  }

  ghost predicate NoDoubleBlank(lines: seq<string>) {
    forall i :: 0 <= i < |lines| - 1 ==> lines[i] != "" || lines[i + 1] != ""
  }

  /** No line break inside a line. */
  ghost predicate OneLine(s: string) {
    '\n' !in s && '\r' !in s
  }

  /** A line that cleaning leaves as it is. */
  predicate Settled(line: string) {
    Stripped(line) && !IsBold(line)
  }

  lemma HeadingShape(inner: string)
    requires OneLine(inner)
    ensures var r := "## " + Strip(inner);
            && OneLine(r) && r != ""
            && (Settled(r) <==> Strip(inner) != "")
            && (r == "## " <==> Strip(inner) == "")
  {
    hide Strip;
    StripFacts(inner);
    var t := Strip(inner);
    var r := "## " + t;
    assert |r| == 3 + |t| && r[0] == '#' && r[2] == ' ' && r[..2][0] == '#';
    assert t != "" ==> r[|r| - 1] == t[|t| - 1];
  }

  lemma CleanLineShape(raw: string)
    requires OneLine(raw) && Strip(raw) != ""
    ensures OneLine(CleanLine(raw)) && CleanLine(raw) != ""
    ensures Settled(CleanLine(raw)) <==> CleanLine(raw) != "## "
    ensures CleanLine(raw) == "## " <==> BlankBold(raw)
  {
    hide Strip, IsBold;
    var line := Strip(raw);
    StripFacts(raw);
    if IsBold(line) {
      BoldIsLong(line);
      var inner := line[2..|line| - 2];
      assert forall c :: c in inner ==> c in line;
      HeadingShape(inner);
    } else {
      assert "## "[2] == ' ' && !Stripped("## ");
    }
  }

  lemma BoldIsLong(line: string)
    requires IsBold(line)
    ensures |line| >= 5
  {
  }

  /** A bold line whose inner text is only whitespace. */
  predicate BlankBold(raw: string) {
    var line := Strip(raw);
    IsBold(line) && Strip(line[2..|line| - 2]) == ""
  }

  lemma BlankIsNotBold(raw: string)
    ensures Strip(raw) == "" ==> !BlankBold(raw)
  {
  }

  lemma EmptyIsSettled()
    ensures Settled("") && OneLine("")
  {
  }

  lemma {:induction false} CleanLinesShape(lines: seq<string>)
    requires forall l :: l in lines ==> OneLine(l)
    ensures var c := CleanLines(lines);
            && (c != [] ==> c[0] != "")
            && NoDoubleBlank(c)
            && (forall l :: l in c ==> OneLine(l) && (Settled(l) || l == "## "))
            && ("## " in c <==> exists l :: l in lines && BlankBold(l))
  {
    hide Strip, CleanLine, BlankBold, OneLine;
    if |lines| > 0 {
      var front, last := lines[..|lines| - 1], lines[|lines| - 1];
      assert lines == front + [last] && last in lines;
      CleanLinesShape(front);
      BlankIsNotBold(last);
      EmptyIsSettled();
      if Strip(last) != "" {
        CleanLineShape(last);
      }
      assert forall l :: l in lines <==> l in front || l == last;
    }
  }

  lemma {:induction false} DropKeeps(lines: seq<string>)
    ensures var d := DropTrailingBlank(lines);
            && |d| <= |lines| && d == lines[..|d|] && (d != [] ==> d[|d| - 1] != "")
            && forall l :: l in lines && l != "" ==> l in d
  {
    if lines != [] && lines[|lines| - 1] == "" {
      assert lines == lines[..|lines| - 1] + [""];
      DropKeeps(lines[..|lines| - 1]);
    }
  }

  lemma {:induction false} UnixHasNoReturn(text: string)
    ensures '\r' !in UnixLines(text)
    ensures '\r' !in text ==> UnixLines(text) == text
    decreases |text|
  {
    if text != "" {
      if text[0] == '\r' {
        UnixHasNoReturn(if |text| > 1 && text[1] == '\n' then text[2..] else text[1..]);
      } else {
        UnixHasNoReturn(text[1..]);
      }
    }
  }

  lemma {:induction false} SplitShape(text: string)
    requires '\r' !in text
    ensures forall l :: l in SplitLines(text) ==> OneLine(l)
  {
    if text != "" {
      SplitShape(text[1..]);
      assert SplitLines(text[1..])[0] in SplitLines(text[1..]);
    }
  }

  /** The raw lines that the clean-up sees. */
  function RawLines(text: string): seq<string> {
    if Strip(UnixLines(text)) == "" then [] else SplitLines(Strip(UnixLines(text)))
  }

  lemma CleanedShape(text: string)
    ensures Tidy(Cleaned(text))
    ensures forall l :: l in Cleaned(text) ==> OneLine(l) && (Settled(l) || l == "## ")
    ensures "## " in Cleaned(text) <==> exists l :: l in RawLines(text) && BlankBold(l)
  {
    var normalized := Strip(UnixLines(text));
    UnixHasNoReturn(text);
    StripFacts(UnixLines(text));
    if normalized != "" {
      SplitShape(normalized);
      CleanLinesShape(SplitLines(normalized));
      DropKeeps(CleanLines(SplitLines(normalized)));
    }
  }

  // ---------------------------------------------------------------------------------
  // What is kept

  /** A line with text, and whether blank lines set it apart from the one with text before it. */
  datatype Solid = Solid(line: string, apart: bool)

  function Solids(lines: seq<string>): seq<Solid> {
    if lines == [] then []
    else
      var n := |lines| - 1;
      var before := Solids(lines[..n]);
      if Strip(lines[n]) == "" then before
      else before + [Solid(lines[n], before != [] && Strip(lines[n - 1]) == "")]
  }

  /** The line without the whitespace around it; a bold one loses its stars and becomes a heading. */
  ghost predicate KeptAs(raw: string, line: string) {
    var t := Strip(raw);
    if |t| >= 5 && t[0] == t[1] == t[|t| - 2] == t[|t| - 1] == '*' then
      |line| >= 3 && line[..3] == "## " && line[3..] == Strip(t[2..|t| - 2])
    else line == t
  }

  ghost predicate AllKept(raw: seq<Solid>, lines: seq<Solid>) {
    && |raw| == |lines|
    && forall k :: 0 <= k < |raw| ==> KeptAs(raw[k].line, lines[k].line) && raw[k].apart == lines[k].apart
  }

  lemma CleanLineKeeps(raw: string)
    requires Strip(raw) != ""
    ensures KeptAs(raw, CleanLine(raw)) && Strip(CleanLine(raw)) != ""
  {
    hide Strip;
    var t := Strip(raw);
    StripFacts(raw);
    StripTwice(raw);
    if |t| >= 5 {
      assert t[..2] == "**" <==> t[0] == t[1] == '*';
      assert t[|t| - 2..] == "**" <==> t[|t| - 2] == t[|t| - 1] == '*';
    }
    if IsBold(t) {
      var r := "## " + Strip(t[2..|t| - 2]);
      assert r[0] == '#' && r[3..] == Strip(t[2..|t| - 2]);
      StripFacts(r);
      assert '#' in r && !IsSpace('#');
    }
  }

  lemma SolidsMore(front: seq<string>, last: string)
    ensures Solids(front + [last]) ==
            Solids(front) + if Strip(last) == "" then []
                            else [Solid(last, Solids(front) != [] && Strip(front[|front| - 1]) == "")]
  {
    hide Strip;
    assert (front + [last])[..|front|] == front;
    assert front != [] ==> (front + [last])[|front| - 1] == front[|front| - 1];
  }

  /** Cleaned so far: the lines with text are kept, and the last line is blank if the last raw one is. */
  ghost predicate KeptSoFar(raw: seq<string>, lines: seq<string>) {
    && AllKept(Solids(raw), Solids(lines))
    && (Solids(raw) == [] ==> lines == [])
    && (Solids(raw) != [] ==> raw != [] && lines != [])
    && (Solids(raw) != [] ==> (Strip(raw[|raw| - 1]) == "" <==> lines[|lines| - 1] == ""))
    && (forall l :: l in lines ==> (Strip(l) == "" <==> l == ""))
  }

  lemma AddKeeps(raw: seq<string>, lines: seq<string>, last: string)
    requires KeptSoFar(raw, lines)
    ensures KeptSoFar(raw + [last], AddLine(lines, last))
  {
    hide Strip, CleanLine, KeptAs;
    SolidsMore(raw, last);
    EmptyIsBlank();
    if Strip(last) != "" {
      CleanLineKeeps(last);
      SolidsMore(lines, CleanLine(last));
      assert lines != [] ==> lines[|lines| - 1] in lines;
    } else {
      SolidsMore(lines, "");
      assert Solids(raw) + [] == Solids(raw) && Solids(lines) + [] == Solids(lines);
    }
  }

  lemma EmptyIsBlank()
    ensures Strip("") == ""
  {
  }

  lemma {:induction false} CleanKeeps(raw: seq<string>)
    ensures KeptSoFar(raw, CleanLines(raw))
  {
    hide KeptSoFar, AddLine;
    if |raw| == 0 {
      NothingKept();
    } else {
      var n := |raw| - 1;
      CleanKeeps(raw[..n]);
      AddKeeps(raw[..n], CleanLines(raw[..n]), raw[n]);
      assert raw == raw[..n] + [raw[n]];
    }
  }

  lemma NothingKept()
    ensures KeptSoFar([], CleanLines([]))
  {
  }

  lemma {:induction false} DropKeepsSolids(lines: seq<string>)
    ensures Solids(DropTrailingBlank(lines)) == Solids(lines)
  {
    EmptyIsBlank();
    hide Strip;
    if lines != [] && lines[|lines| - 1] == "" {
      DropKeepsSolids(lines[..|lines| - 1]);
    }
  }

  /** Every line with text is kept, in order, cleaned, and set apart from the one before it exactly if it was. */
  lemma EveryLineIsKept(text: string)
    ensures AllKept(Solids(RawLines(text)), Solids(Cleaned(text)))
  {
    hide Strip, Solids, CleanLines, SplitLines, UnixLines;
    var raw := RawLines(text);
    CleanKeeps(raw);
    DropKeepsSolids(CleanLines(raw));
    if raw == [] {
      NothingKept();
    }
  }

  /** A carriage return with or without a line feed is a line break. */
  lemma {:induction false} ReturnsBecomeBreaks(line: string, rest: string)
    requires '\r' !in line
    ensures UnixLines(line + "\r\n" + rest) == line + "\n" + UnixLines(rest)
    ensures rest == "" || rest[0] != '\n' ==> UnixLines(line + "\r" + rest) == line + "\n" + UnixLines(rest)
  {
    if line == "" {
      var both, one := "\r\n" + rest, "\r" + rest;
      assert line + "\r\n" + rest == both && both[0] == '\r' && both[1] == '\n' && both[2..] == rest;
      assert line + "\r" + rest == one && one[0] == '\r' && one[1..] == rest;
      assert line + "\n" == "\n";
    } else {
      var tail := line[1..];
      ReturnsBecomeBreaks(tail, rest);
      assert (line + "\r\n" + rest)[1..] == tail + "\r\n" + rest;
      assert (line + "\r" + rest)[1..] == tail + "\r" + rest;
      assert [line[0]] + (tail + "\n" + UnixLines(rest)) == line + "\n" + UnixLines(rest);
    }
  }

  // ---------------------------------------------------------------------------------
  // Splitting undoes joining

  lemma {:induction false} SplitPrefix(line: string, rest: string)
    requires OneLine(line)
    ensures SplitLines(line + rest) == [line + SplitLines(rest)[0]] + SplitLines(rest)[1..]
  {
    if line == "" {
      var r := SplitLines(rest);
      assert line + rest == rest && line + r[0] == r[0] && r == [r[0]] + r[1..];
    } else {
      var all := line + rest;
      assert all[0] == line[0] && all[1..] == line[1..] + rest;
      SplitPrefix(line[1..], rest);
      assert [line[0]] + (line[1..] + SplitLines(rest)[0]) == line + SplitLines(rest)[0];
    }
  }

  lemma {:induction false} SplitJoin(lines: seq<string>)
    requires lines != [] && forall l :: l in lines ==> OneLine(l)
    ensures SplitLines(JoinLines(lines)) == lines
    ensures '\r' !in JoinLines(lines)
  {
    assert lines[0] in lines;
    if |lines| == 1 {
      SplitPrefix(lines[0], "");
      assert lines[0] + "" == lines[0];
    } else {
      var tail := JoinLines(lines[1..]);
      var rest := "\n" + tail;
      assert rest[0] == '\n' && rest[1..] == tail;
      assert JoinLines(lines) == lines[0] + rest;
      SplitPrefix(lines[0], rest);
      SplitJoin(lines[1..]);
      assert lines[0] + "" == lines[0];
    }
  }

  lemma {:induction false} JoinEnds(lines: seq<string>)
    requires lines != [] && lines[0] != "" && lines[|lines| - 1] != ""
    ensures var t := JoinLines(lines);
            t != "" && t[0] == lines[0][0] && t[|t| - 1] == lines[|lines| - 1][|lines[|lines| - 1]| - 1]
  {
    if |lines| > 1 {
      var rest := lines[1..];
      if rest[0] != "" {
        JoinEnds(rest);
      } else {
        JoinEndsLoosely(rest);
      }
    }
  }

  lemma {:induction false} JoinEndsLoosely(lines: seq<string>)
    requires lines != [] && lines[|lines| - 1] != ""
    ensures var t := JoinLines(lines);
            t != "" && t[|t| - 1] == lines[|lines| - 1][|lines[|lines| - 1]| - 1]
  {
    if |lines| > 1 {
      JoinEndsLoosely(lines[1..]);
    }
  }

  lemma {:induction false} CleanSettled(lines: seq<string>)
    requires (lines != [] ==> lines[0] != "") && NoDoubleBlank(lines)
    requires forall l :: l in lines ==> Settled(l)
    ensures CleanLines(lines) == lines
  {
    if |lines| > 0 {
      var n := |lines| - 1;
      var front, last := lines[..n], lines[n];
      assert last in lines && lines == front + [last];
      CleanSettled(front);
      StripFacts(last);
      if last == "" {
        assert n > 0 && lines[n - 1] != "";
      }
    }
  }

  /**
   * The report has no blank line at its ends, no two blank lines in a row and no carriage return, and a second pass
   * changes nothing exactly when no line of the text is bold with only whitespace inside.
   */
  lemma NormalizationSettles(text: string)
    ensures Tidy(Cleaned(text)) && '\r' !in Normalized(text)
    ensures Cleaned(text) != [] ==> SplitLines(Normalized(text)) == Cleaned(text)
    ensures Normalized(Normalized(text)) == Normalized(text) <==>
            forall l :: l in RawLines(text) ==> !BlankBold(l)
  {
    hide BlankBold;
    CleanedShape(text);
    var lines := Cleaned(text);
    if lines != [] {
      SplitJoin(lines);
      if "## " in lines {
        SecondPassShortens(lines);
      } else {
        SecondPassKeeps(lines);
      }
    }
  }

  lemma SecondPassKeeps(lines: seq<string>)
    requires lines != [] && Tidy(lines) && forall l :: l in lines ==> OneLine(l) && Settled(l)
    ensures Normalized(JoinLines(lines)) == JoinLines(lines)
  {
    var t := JoinLines(lines);
    SplitJoin(lines);
    JoinEnds(lines);
    UnixHasNoReturn(t);
    assert lines[0] in lines && lines[|lines| - 1] in lines;
    StripFacts(t);
    CleanSettled(lines);
  }

  lemma {:induction false} JoinLast(front: seq<string>, x: string)
    ensures JoinLines(front + [x]) == (if front == [] then "" else JoinLines(front) + "\n") + x
  {
    if front != [] {
      assert (front + [x])[1..] == front[1..] + [x];
      JoinLast(front[1..], x);
      if |front| > 1 {
        var rest := JoinLines(front[1..]);
        assert front[0] + "\n" + (rest + "\n" + x) == (front[0] + "\n" + rest) + "\n" + x;
      }
    }
  }

  /** Stripping the whole report trims "## " on its last line and nothing else. */
  function TrimLast(lines: seq<string>): seq<string>
    requires lines != []
  {
    var n := |lines| - 1;
    if lines[n] == "## " then lines[..n] + ["##"] else lines
  }

  lemma TrimOne(t: string)
    requires Stripped(t) && t != ""
    ensures Strip(t + " ") == t
  {
    assert StripRight(t) == t;
    assert (t + " ")[..|t|] == t;
    assert StripLeft(t + " ") == t + " ";
  }

  lemma StripTrimsLast(lines: seq<string>)
    requires lines != [] && Tidy(lines) && forall l :: l in lines ==> Settled(l) || l == "## "
    ensures Strip(JoinLines(lines)) == JoinLines(TrimLast(lines))
  {
    hide Strip, NoDoubleBlank;
    var n := |lines| - 1;
    assert lines[0] in lines && lines[n] in lines && "## "[0] == '#';
    if lines[n] == "## " {
      TrimHeading(lines);
    } else {
      JoinEnds(lines);
      StripFacts(JoinLines(lines));
    }
  }

  lemma TrimHeading(lines: seq<string>)
    requires lines != [] && lines[|lines| - 1] == "## " && lines[0] != "" && !IsSpace(lines[0][0])
    ensures Strip(JoinLines(lines)) == JoinLines(TrimLast(lines))
  {
    hide Strip, JoinLines;
    var n := |lines| - 1;
    var trimmed := TrimLast(lines);
    JoinLast(lines[..n], "## ");
    JoinLast(lines[..n], "##");
    assert lines == lines[..n] + ["## "] && trimmed == lines[..n] + ["##"];
    assert JoinLines(lines) == JoinLines(trimmed) + " ";
    JoinEnds(trimmed);
    TrimOne(JoinLines(trimmed));
  }

  lemma SecondPassShortens(lines: seq<string>)
    requires "## " in lines && Tidy(lines) && forall l :: l in lines ==> OneLine(l) && (Settled(l) || l == "## ")
    ensures Normalized(JoinLines(lines)) != JoinLines(lines)
  {
    hide Settled, OneLine, Tidy;
    var t := JoinLines(lines);
    SplitJoin(lines);
    UnixHasNoReturn(t);
    StripTrimsLast(lines);
    TrimLastShape(lines);
    SplitJoin(TrimLast(lines));
    CleanedShape(t);
    if Cleaned(t) != [] {
      SplitJoin(Cleaned(t));
    } else {
      assert SplitLines("") == [""];
    }
    assert forall l :: l in RawLines(t) ==> l in TrimLast(lines);
  }

  lemma StripHeading()
    ensures Strip("## ") == "##"
  {
    var h := "## ";
    assert h[0] == '#' && StripLeft(h) == h;
    assert h[..2] == "##" && h[2] == ' ';
    assert StripRight("##") == "##" by {
      assert "##"[1] == '#';
    }
  }

  lemma TrimLastShape(lines: seq<string>)
    requires lines != [] && forall l :: l in lines ==> OneLine(l) && (Settled(l) || l == "## ")
    ensures forall l :: l in TrimLast(lines) ==> OneLine(l) && !BlankBold(l)
  {
    hide Settled, BlankBold;
    forall l | l in TrimLast(lines) ensures OneLine(l) && !BlankBold(l) {
      assert l in lines || l == "##";
      NotBlankBold(l);
    }
  }

  lemma NotBlankBold(l: string)
    requires Settled(l) || l == "## " || l == "##"
    ensures !BlankBold(l)
  {
    hide Strip;
    StripFacts(l);
    if l == "## " {
      StripHeading();
    }
  }

  lemma CleanOne(line: string)
    requires OneLine(line) && Strip(line) == line != ""
    ensures DropTrailingBlank(CleanLines([line])) == [CleanLine(line)]
  {
    hide Strip, CleanLine;
    CleanLineShape(line);
    assert [line][..0] == [];
    assert CleanLines([line]) == AddLine([], line);
  }

  /** A report of one line is that line, cleaned. */
  lemma OneLineReport(text: string)
    requires OneLine(text) && Strip(text) != ""
    ensures Normalized(text) == CleanLine(Strip(text))
  {
    hide Strip, CleanLine, CleanLines, DropTrailingBlank;
    var line := Strip(text);
    UnixHasNoReturn(text);
    StripFacts(text);
    StripTwice(text);
    SplitPrefix(line, "");
    assert line + "" == line && SplitLines(line) == [line];
    CleanOne(line);
  }

  lemma BlankBoldIsBold()
    ensures var bold := "** **";
            OneLine(bold) && Strip(bold) == bold && IsBold(bold) && bold[2..|bold| - 2] == " " && Strip(" ") == ""
  {
    var bold := "** **";
    assert bold[..2] == "**" && bold[3..] == "**" && |bold| == 5;
    assert bold[0] == '*' && bold[4] == '*';
    hide Strip;
    StripFacts(bold);
    StripFacts(" ");
  }

  /** A bold line with a blank inside: the first pass leaves a bare heading mark, the second one shortens it. */
  lemma BlankBoldNeedsTwoPasses()
    ensures Normalized("** **") == "## " && Normalized(Normalized("** **")) == "##"
  {
    BlankBoldIsBold();
    StripHeading();
    assert OneLine("## ") && !IsBold("##");
    hide Strip, IsBold, OneLine, Normalized;
    OneLineReport("** **");
    OneLineReport("## ");
    StripTwice("## ");
  }
}
