/** What a question says apart from its spacing, read off its characters. */
module Wordings {
  import opened Text

  /** A character that is not whitespace, and whether it begins a run of such characters. */
  datatype Mark = Mark(c: char, first: bool)

  /** The marks of `s`, where `spaced` tells whether whitespace or nothing comes before it. */
  function MarksFrom(s: string, spaced: bool): seq<Mark> {
    if s == "" then []
    else if IsSpace(s[0]) then MarksFrom(s[1..], true)
    else [Mark(s[0], spaced)] + MarksFrom(s[1..], false)
  }

  /** What a question says apart from how it is spaced: its runs of characters, in order. */
  function Wording(question: string): seq<Mark> {
    MarksFrom(question, true)
  }

  predicate SameQuestion(q: string, r: string) {
    Wording(q) == Wording(r)
  }

  /** Written out with one space between runs. */
  function Spelled(marks: seq<Mark>, begin: bool): string {
    if marks == [] then ""
    else (if marks[0].first && !begin then " " else "") + [marks[0].c] + Spelled(marks[1..], false)
  }

  function MarkOf(c: char, spaced: bool): seq<Mark> {
    if IsSpace(c) then [] else [Mark(c, spaced)]
  }

  lemma MarksStep(s: string, spaced: bool)
    requires s != ""
    ensures MarksFrom(s, spaced) == MarkOf(s[0], spaced) + MarksFrom(s[1..], IsSpace(s[0]))
  {
    hide IsSpace;
    assert [] + MarksFrom(s[1..], true) == MarksFrom(s[1..], true);
  }

  lemma MarksNothing(spaced: bool)
    ensures MarksFrom("", spaced) == []
  {
  }

  lemma {:induction false} MarksConcat(a: string, b: string, spaced: bool)
    ensures MarksFrom(a + b, spaced) ==
            MarksFrom(a, spaced) + MarksFrom(b, if a == "" then spaced else IsSpace(a[|a| - 1]))
  {
    hide IsSpace, MarksFrom, MarkOf;
    if a == "" {
      assert a + b == b;
      MarksNothing(spaced);
      assert [] + MarksFrom(b, spaced) == MarksFrom(b, spaced);
    } else {
      var rest := a[1..];
      assert (a + b)[1..] == rest + b;
      MarksStep(a + b, spaced);
      MarksStep(a, spaced);
      MarksConcat(rest, b, IsSpace(a[0]));
      assert rest != "" ==> rest[|rest| - 1] == a[|a| - 1];
    }
  }

  /** After whitespace, or at the end, it does not matter what came before. */
  lemma AfterWord(rest: string)
    requires rest == "" || IsSpace(rest[0])
    ensures MarksFrom(rest, false) == MarksFrom(rest, true)
  {
  }

  lemma {:induction false} WordHasNoSpace(s: string)
    ensures forall c :: c in s[..WordLength(s)] ==> !IsSpace(c)
    ensures WordLength(s) < |s| ==> IsSpace(s[WordLength(s)])
  {
    if s != "" && !IsSpace(s[0]) {
      WordHasNoSpace(s[1..]);
      assert s[..WordLength(s)] == [s[0]] + s[1..][..WordLength(s[1..])];
    }
  }

  /** A word contributes its characters, of which only the first begins a run. */
  lemma WordMarks(word: string, rest: string)
    requires word != "" && (forall c :: c in word ==> !IsSpace(c)) && (rest == "" || IsSpace(rest[0]))
    ensures MarksFrom(word + rest, true) == MarksFrom(word, true) + MarksFrom(rest, true)
  {
    hide IsSpace;
    MarksConcat(word, rest, true);
    assert word[|word| - 1] in word;
    AfterWord(rest);
  }

  lemma {:induction false} SpelledWord(word: string, marks: seq<Mark>, spaced: bool, begin: bool)
    requires word != "" && (forall c :: c in word ==> !IsSpace(c)) && (spaced ==> begin)
    ensures Spelled(MarksFrom(word, spaced) + marks, begin) == word + Spelled(marks, false)
  {
    hide IsSpace, MarksFrom;
    var rest := word[1..];
    assert word[0] in word;
    MarksStep(word, spaced);
    var m := Mark(word[0], spaced);
    assert MarksFrom(word, spaced) == [m] + MarksFrom(rest, false);
    SpelledMark(m, MarksFrom(rest, false) + marks, begin);
    assert MarksFrom(word, spaced) + marks == [m] + (MarksFrom(rest, false) + marks);
    if rest != "" {
      forall c | c in rest ensures !IsSpace(c) {
        assert c in word;
      }
      SpelledWord(rest, marks, false, false);
      assert word == [word[0]] + rest;
    } else {
      MarksNothing(false);
      assert [] + marks == marks;
      assert word == [word[0]];
    }
  }

  lemma SpelledMark(m: Mark, marks: seq<Mark>, begin: bool)
    requires m.first ==> begin
    ensures Spelled([m] + marks, begin) == [m.c] + Spelled(marks, false)
  {
    assert ([m] + marks)[1..] == marks;
    assert "" + [m.c] == [m.c];
  }

  lemma MarksBegin(s: string)
    ensures MarksFrom(s, true) != [] ==> MarksFrom(s, true)[0].first
    ensures MarksFrom(s, true) == [] <==> Words(s) == []
    decreases |s|
  {
    if s != "" && IsSpace(s[0]) {
      MarksBegin(s[1..]);
    }
  }

  /** Words joined by spaces have the runs of the text they come from, and are what those runs spell. */
  lemma {:induction false} JoinedWords(s: string)
    ensures MarksFrom(Join(Words(s), " "), true) == MarksFrom(s, true)
    ensures Join(Words(s), " ") == Spelled(MarksFrom(s, true), true)
    decreases |s|
  {
    if s != "" {
      if IsSpace(s[0]) {
        JoinedWords(s[1..]);
      } else {
        var word, rest := s[..WordLength(s)], s[WordLength(s)..];
        assert s == word + rest;
        JoinedWords(rest);
        JoinedMore(s, word, rest);
      }
    }
  }

  lemma JoinedMore(s: string, word: string, rest: string)
    requires s != "" && !IsSpace(s[0]) && word == s[..WordLength(s)] && rest == s[WordLength(s)..]
    requires MarksFrom(Join(Words(rest), " "), true) == MarksFrom(rest, true)
    requires Join(Words(rest), " ") == Spelled(MarksFrom(rest, true), true)
    ensures MarksFrom(Join(Words(s), " "), true) == MarksFrom(s, true)
    ensures Join(Words(s), " ") == Spelled(MarksFrom(s, true), true)
  {
    hide *;
    assert s == word + rest;
    JoinWord(s, word, rest);
    WordHasNoSpace(s);
    MarksBegin(rest);
    JoinedMarks(word, rest, Join(Words(rest), " "), Join(Words(s), " "));
    WordMarks(word, rest);
    JoinedSpelled(word, MarksFrom(rest, true), Join(Words(rest), " "), Join(Words(s), " "));
  }

  /** `all` is the word, followed by a space and `text` unless nothing follows. */
  lemma JoinedMarks(word: string, rest: string, text: string, all: string)
    requires word != "" && (forall c :: c in word ==> !IsSpace(c)) && (rest == "" || IsSpace(rest[0]))
    requires MarksFrom(text, true) == MarksFrom(rest, true)
    requires all == if MarksFrom(rest, true) == [] then word else word + (" " + text)
    ensures MarksFrom(all, true) == MarksFrom(word + rest, true)
  {
    WordMarks(word, rest);
    SpacedTail(word, text);
    hide *;
    assert MarksFrom(word, true) + [] == MarksFrom(word, true);
  }

  lemma JoinedSpelled(word: string, marks: seq<Mark>, text: string, all: string)
    requires word != "" && (forall c :: c in word ==> !IsSpace(c))
    requires text == Spelled(marks, true) && (marks != [] ==> marks[0].first)
    requires all == if marks == [] then word else word + (" " + text)
    ensures all == Spelled(MarksFrom(word, true) + marks, true)
  {
    SpelledWord(word, marks, true, true);
    SpelledNothing();
    if marks != [] {
      SpelledLater(marks);
    }
    hide *;
    assert word + "" == word;
  }

  lemma JoinWord(s: string, word: string, rest: string)
    requires s != "" && !IsSpace(s[0]) && word == s[..WordLength(s)] && rest == s[WordLength(s)..]
    ensures word != ""
    ensures Join(Words(s), " ") == if Words(rest) == [] then word else word + (" " + Join(Words(rest), " "))
  {
    hide IsSpace;
    assert Words(s) == [word] + Words(rest);
    assert Words(s)[1..] == Words(rest);
    assert word + " " + Join(Words(rest), " ") == word + (" " + Join(Words(rest), " "));
  }

  lemma SpacedTail(word: string, text: string)
    requires word != "" && forall c :: c in word ==> !IsSpace(c)
    ensures MarksFrom(word + (" " + text), true) == MarksFrom(word, true) + MarksFrom(text, true)
  {
    var tail := " " + text;
    WordMarks(word, tail);
    assert tail[1..] == text;
  }

  lemma SpelledLater(marks: seq<Mark>)
    requires marks != [] && marks[0].first
    ensures Spelled(marks, false) == " " + Spelled(marks, true)
  {
    var first, rest := [marks[0].c], Spelled(marks[1..], false);
    hide *;
    assert " " + first + rest == " " + (first + rest);
    assert "" + first == first;
  }

  lemma {:induction false} BlankMarks(s: string, spaced: bool)
    requires forall c :: c in s ==> IsSpace(c)
    ensures MarksFrom(s, spaced) == []
  {
    if s != "" {
      BlankMarks(s[1..], true);
    }
  }

  lemma WordingOfStripped(question: string)
    ensures Wording(Strip(question)) == Wording(question)
    ensures Wording(question) == [] <==> Strip(question) == ""
  {
    hide IsSpace;
    var s := question;
    var i, j := StripIsMiddle(s);
    assert s == s[..i] + (s[i..j] + s[j..]);
    BlankMarks(s[..i], true);
    MarksConcat(s[..i], s[i..j] + s[j..], true);
    BlankMarks(s[j..], if i == j then true else IsSpace(s[j - 1]));
    MarksConcat(s[i..j], s[j..], true);
    StripFacts(s);
    if Strip(s) == "" {
      assert s[i..j] == "";
    }
  }

  lemma SpelledNothing()
    ensures Spelled([], true) == Spelled([], false) == "" && MarksFrom("", true) == []
  {
  }
}
