/** Parsing of the completion model's decomposition answer into a list of
    questions and a list of non-questions (`split_questions_and_non_questions`
    in src/apis.rs). */
module Decomposition {
  import opened Wrappers
  import opened Text

  const QuestionsHeader := "**Questions:**"
  const NonQuestionsHeader := "**Non-Questions:**"
  /** The one ordinal marker the parser strips, repeatedly, from a line's start. */
  const OrdinalMarker := "1."

  /** A line is blank when nothing but whitespace is left after trimming. */
  predicate IsBlank(line: string) {
    Trim(line) == []
  }

  /** Drops every leading "1." from a line, then trims whitespace from both
      ends. */
  function CleanLine(line: string): string {
    Trim(TrimStartMatches(line, OrdinalMarker))
  }

  /** The items of a list of lines: blank lines are skipped, every other
      line is cleaned. */
  function ParseItems(lines: seq<string>): (r: seq<string>)
    ensures |r| <= |lines|
  {
    if lines == [] then [] else ParseLine(lines[0]) + ParseItems(lines[1..])
  }

  /** The item one line contributes: none for a blank line. */
  function ParseLine(line: string): (r: seq<string>)
    ensures |r| <= 1
  {
    if IsBlank(line) then [] else [CleanLine(line)]
  }

  /** The items of one section of the answer, one per non-blank line. */
  function ParseSection(part: string): seq<string> {
    ParseItems(Lines(part))
  }

  /** Splits on the non-questions header; with exactly two pieces, the
      questions are read from the piece after the first questions header in
      the first piece (up to a second questions header, if any) and the
      non-questions from the second piece; otherwise both lists are empty. */
  function SplitQuestionsAndNonQuestions(input: string): (r: (seq<string>, seq<string>))
    ensures |SplitOn(input, NonQuestionsHeader)| != 2 ==> r == ([], [])
    ensures |SplitOn(input, NonQuestionsHeader)| == 2 ==>
              r.1 == ParseSection(SplitOn(input, NonQuestionsHeader)[1])
  {
    var parts := SplitOn(input, NonQuestionsHeader);
    if |parts| == 2 then
      var questionParts := SplitOn(parts[0], QuestionsHeader);
      var questions := if |questionParts| >= 2 then ParseSection(questionParts[1]) else [];
      (questions, ParseSection(parts[1]))
    else
      ([], [])
  }

  /** Parsing distributes over concatenation of the line lists: each line
      contributes on its own and in place. */
  lemma {:induction false} ParseItemsAppend(xs: seq<string>, ys: seq<string>)
    ensures ParseItems(xs + ys) == ParseItems(xs) + ParseItems(ys)
    decreases |xs|
  {
    if xs == [] {
      assert xs + ys == ys;
    } else {
      assert (xs + ys)[0] == xs[0];
      assert (xs + ys)[1..] == xs[1..] + ys;
      ParseItemsAppend(xs[1..], ys);
    }
  }

  /** A single line yields nothing if it is blank and its cleaned text
      otherwise. */
  lemma ParseItemsSingle(line: string)
    ensures ParseItems([line]) == if IsBlank(line) then [] else [CleanLine(line)]
  {
    assert [line][1..] == [];
  }

  /** A line without the marker in front and without surrounding whitespace
      is kept as it is: "2. x" keeps its number. */
  lemma CleanLineKeepsOtherOrdinals()
    ensures CleanLine("2. x") == "2. x"
  {
    TrimStartMatchesStops("2. x", OrdinalMarker, 0);
    TrimKeeps("2. x");
  }

  /** The trim happens after the marker is stripped, so an indented
      " 1. x" keeps its marker. */
  lemma CleanLineIndentedMarker()
    ensures CleanLine(" 1. x") == "1. x"
  {
    CleanLineIndented("1. x");
    assert [' '] + "1. x" == " 1. x";
  }

  /** A line indented by one space keeps everything after that space. */
  lemma CleanLineIndented(body: string)
    requires body == [] || (!IsWhitespace(body[0]) && !IsWhitespace(body[|body| - 1]))
    ensures CleanLine([' '] + body) == body
  {
    TrimStartMatchesStops([' '] + body, OrdinalMarker, 0);
    TrimSkipsLeading(' ', body);
    TrimKeeps(body);
  }

  /** Only the marker goes: the space after it stays. */
  lemma StripMarkerBeforeSpace(text: string)
    ensures TrimStartMatches("1. " + text, OrdinalMarker) == " " + text
  {
    assert "1. " + text == OrdinalMarker + (" " + text);
    TrimStartMatchesStrips(OrdinalMarker, " " + text);
    TrimStartMatchesStops(" " + text, OrdinalMarker, 0);
  }

  /** A line "1." followed by text with a space in front, the shape the
      completion model is asked to produce, is cleaned to that text. */
  lemma CleanLineNumbered(text: string)
    requires text == [] || (!IsWhitespace(text[0]) && !IsWhitespace(text[|text| - 1]))
    ensures CleanLine("1. " + text) == text
  {
    StripMarkerBeforeSpace(text);
    assert " " + text == [' '] + text;
    TrimSkipsLeading(' ', text);
    TrimKeeps(text);
  }

  /** The marker is stripped as often as it repeats: "1.1. x" becomes "x". */
  lemma CleanLineRepeatedMarker(text: string)
    requires text == [] || (!IsWhitespace(text[0]) && !IsWhitespace(text[|text| - 1]))
    ensures CleanLine("1.1. " + text) == text
  {
    assert "1.1. " + text == OrdinalMarker + ("1. " + text);
    TrimStartMatchesStrips(OrdinalMarker, "1. " + text);
    CleanLineNumbered(text);
  }

  /** An occurrence of the separator yields a second piece. */
  lemma SplitOnOccurrence(s: string, sep: string, i: nat)
    requires sep != []
    requires OccursAt(s, sep, i)
    ensures |SplitOn(s, sep)| >= 2
  {
  }

  /** Without a non-questions header there is nothing to parse. */
  lemma MissingHeaderGivesNothing(input: string)
    requires !Contains(input, NonQuestionsHeader)
    ensures SplitQuestionsAndNonQuestions(input) == ([], [])
  {
  }

  /** With the non-questions header present twice, nothing is parsed either. */
  lemma RepeatedHeaderGivesNothing(a: string, b: string, c: string)
    ensures SplitQuestionsAndNonQuestions(a + NonQuestionsHeader + b + NonQuestionsHeader + c) == ([], [])
  {
    var h := NonQuestionsHeader;
    var s := a + h + b + h + c;
    var q := |a| + |h| + |b|;
    assert s[|a|..|a| + |h|] == h;
    assert s[q..q + |h|] == h;
    SplitOnTwoOccurrences(s, h, |a|, q);
  }

  /** Two non-overlapping occurrences of the separator give at least three
      pieces. */
  lemma SplitOnTwoOccurrences(s: string, sep: string, p: nat, q: nat)
    requires sep != []
    requires OccursAt(s, sep, p) && OccursAt(s, sep, q)
    requires p + |sep| <= q
    ensures |SplitOn(s, sep)| >= 3
  {
    var i := FirstAtMost(s, sep, p);
    var k := i + |sep|;
    OccursInSuffix(s, sep, q, k);
    SplitOnOccurrence(s[k..], sep, q - k);
    SplitOnAt(s, sep, i);
  }

  /** The first occurrence is at or before any given one. */
  lemma FirstAtMost(s: string, sep: string, p: nat) returns (i: nat)
    requires OccursAt(s, sep, p)
    ensures IndexOf(s, sep) == Some(i) && i <= p
  {
    OccurrenceContains(s, sep, p);
    i := IndexOf(s, sep).value;
  }

  /** An occurrence at or after `k` is one in the suffix from `k`. */
  lemma OccursInSuffix(s: string, sep: string, q: nat, k: nat)
    requires OccursAt(s, sep, q) && k <= q
    ensures OccursAt(s[k..], sep, q - k)
  {
    assert s[k..][q - k..q - k + |sep|] == s[q..q + |sep|];
  }

  /** `split` cuts at the first occurrence and goes on after it. */
  lemma SplitOnAt(s: string, sep: string, i: nat)
    requires sep != []
    requires IndexOf(s, sep) == Some(i)
    ensures SplitOn(s, sep) == [s[..i]] + SplitOn(s[i + |sep|..], sep)
  {
  }

  /** A first section without a questions header gives no questions, while
      the non-questions are still parsed. */
  lemma MissingQuestionsHeader(input: string)
    requires |SplitOn(input, NonQuestionsHeader)| == 2
    requires !Contains(SplitOn(input, NonQuestionsHeader)[0], QuestionsHeader)
    ensures SplitQuestionsAndNonQuestions(input)
         == ([], ParseSection(SplitOn(input, NonQuestionsHeader)[1]))
  {
  }

  /** An answer read as the text `pre` before the first questions header,
      the questions text `q` up to the first non-questions header, and the
      non-questions text `s` after it: the questions come from `q` up to any
      further questions header, the non-questions from all of `s`. The
      conditions are on the joined text, since a header can also arise
      across the joins (see `HeaderAcrossJoin`). */
  lemma QuestionsAndNonQuestionsRead(pre: string, q: string, s: string)
    requires IndexOf(pre + QuestionsHeader, QuestionsHeader) == Some(|pre|)
    requires IndexOf(pre + QuestionsHeader + q + NonQuestionsHeader, NonQuestionsHeader)
          == Some(|pre + QuestionsHeader + q|)
    requires !Contains(s, NonQuestionsHeader)
    ensures SplitQuestionsAndNonQuestions(pre + QuestionsHeader + q + NonQuestionsHeader + s)
         == (ParseSection(SplitOn(q, QuestionsHeader)[0]), ParseSection(s))
    ensures !Contains(q, QuestionsHeader) ==>
              SplitQuestionsAndNonQuestions(pre + QuestionsHeader + q + NonQuestionsHeader + s)
              == (ParseSection(q), ParseSection(s))
  {
    var first := pre + QuestionsHeader + q;
    var input := first + NonQuestionsHeader + s;
    SplitAtOnlyHeader(first, s);
    var pieces := SplitOn(first, QuestionsHeader);
    SplitOnFirst(pre, QuestionsHeader, q);
    assert pieces == [pre] + SplitOn(q, QuestionsHeader);
    assert pieces[1] == SplitOn(q, QuestionsHeader)[0];
    assert SplitQuestionsAndNonQuestions(input).0 == ParseSection(pieces[1]);
  }

  /** An answer with one non-questions header splits into the text before
      it and the text after it. */
  lemma SplitAtOnlyHeader(first: string, s: string)
    requires IndexOf(first + NonQuestionsHeader, NonQuestionsHeader) == Some(|first|)
    requires !Contains(s, NonQuestionsHeader)
    ensures SplitOn(first + NonQuestionsHeader + s, NonQuestionsHeader) == [first, s]
  {
    SplitOnFirst(first, NonQuestionsHeader, s);
  }

  /** The layout the decomposition prompt asks for: the questions header,
      a line break, the questions, a line break, the non-questions header
      and the non-questions. */
  lemma WellFormedAnswer(q: string, s: string)
    requires !Contains(q, QuestionsHeader) && !Contains(q, NonQuestionsHeader)
    requires !Contains(s, NonQuestionsHeader)
    ensures SplitQuestionsAndNonQuestions(QuestionsHeader + "\n" + q + "\n" + NonQuestionsHeader + s)
         == (ParseSection("\n" + q + "\n"), ParseSection(s))
  {
    var qq := "\n" + q + "\n";
    QuestionsHeaderLeads();
    NonQuestionsHeaderAfterLine(q);
    LineLacksQuestionsHeader(q);
    QuestionsAndNonQuestionsRead("", qq, s);
    Regroup(QuestionsHeader, "\n", q, NonQuestionsHeader, s);
  }

  lemma QuestionsHeaderLeads()
    ensures IndexOf("" + QuestionsHeader, QuestionsHeader) == Some(|""|)
  {
    FirstOccurrenceByChar("", QuestionsHeader, 0);
    assert "" + QuestionsHeader == QuestionsHeader;
  }

  /** Behind a line break, the first non-questions header is the one after
      the questions text. */
  lemma NonQuestionsHeaderAfterLine(q: string)
    requires !Contains(q, NonQuestionsHeader)
    ensures IndexOf("" + QuestionsHeader + ("\n" + q + "\n") + NonQuestionsHeader, NonQuestionsHeader)
         == Some(|"" + QuestionsHeader + ("\n" + q + "\n")|)
  {
    var x := QuestionsHeader + "\n" + q;
    assert '\n' !in NonQuestionsHeader;
    ShorterLacks(QuestionsHeader, NonQuestionsHeader);
    LacksAcrossChar(QuestionsHeader, '\n', q, NonQuestionsHeader);
    FirstAfterChar(x, '\n', NonQuestionsHeader);
    JoinLines(QuestionsHeader, q, NonQuestionsHeader);
  }

  /** Regrouping of the joined pieces. */
  lemma JoinLines(h: string, q: string, g: string)
    ensures "" + h + ("\n" + q + "\n") + g == h + "\n" + q + ['\n'] + g
    ensures |"" + h + ("\n" + q + "\n")| == |h + "\n" + q| + 1
  {
  }

  lemma Regroup(h: string, nl: string, q: string, g: string, s: string)
    ensures "" + h + (nl + q + nl) + g + s == h + nl + q + nl + g + s
  {
  }

  /** Questions text free of the questions header stays free of it between
      line breaks. */
  lemma LineLacksQuestionsHeader(q: string)
    requires !Contains(q, QuestionsHeader)
    ensures !Contains("\n" + q + "\n", QuestionsHeader)
  {
    ShorterLacks("", QuestionsHeader);
    LacksAcrossChar(q, '\n', "", QuestionsHeader);
    assert q + "\n" + "" == q + "\n";
    LacksAcrossChar("", '\n', q + "\n", QuestionsHeader);
    assert "" + "\n" + (q + "\n") == "\n" + q + "\n";
  }

  /** The questions header followed by "Non-Questions:**" holds a
      non-questions header across the join, so this answer has two of them
      and nothing is parsed, although neither header occurs inside the
      questions text "Non-Questions:**x" and the non-questions text "y"
      would give an item. */
  lemma HeaderAcrossJoin()
    ensures !Contains("Non-Questions:**x", QuestionsHeader) && !Contains("Non-Questions:**x", NonQuestionsHeader)
    ensures SplitQuestionsAndNonQuestions(QuestionsHeader + "Non-Questions:**x" + NonQuestionsHeader + "y")
         == ([], [])
    ensures ParseSection("y") != []
  {
    AbsentByChar("y", "\n", 0);
    ParseItemsSingle("y");
    var a := "**Questions:";
    var d := "**";
    var e := "Non-Questions:**";
    ShorterLacks("**x", QuestionsHeader);
    ShorterLacks("**x", NonQuestionsHeader);
    LacksAfterPrefix("Non-Questions:", "**x", QuestionsHeader);
    LacksAfterPrefix("Non-Questions:", "**x", NonQuestionsHeader);
    HeaderPieces();
    RepeatedHeaderGivesNothing(a, "x", "y");
    RegroupJoin(a, d, e, "x", NonQuestionsHeader, "y");
  }

  lemma HeaderPieces()
    ensures QuestionsHeader == "**Questions:" + "**"
    ensures NonQuestionsHeader == "**" + "Non-Questions:**"
    ensures "Non-Questions:**x" == "Non-Questions:**" + "x"
    ensures "Non-Questions:**x" == "Non-Questions:" + "**x"
  {
  }

  lemma RegroupJoin(a: string, d: string, e: string, b: string, g: string, c: string)
    ensures (a + d) + (e + b) + g + c == a + (d + e) + b + g + c
  {
  }

  /** The lines of a blank line followed by one numbered line, with or
      without a final newline. */
  lemma OneItemLines(line: string, tail: string)
    requires '\n' !in line && line != [] && line[|line| - 1] != '\r'
    requires tail == "" || tail == "\n"
    ensures Lines("\n" + line + tail) == ["", line]
  {
    LinesCons("", line + tail);
    assert "" + "\n" + (line + tail) == "\n" + line + tail;
    if tail == "" {
      AbsentByChar(line, "\n", 0);
      assert line + tail == line;
    } else {
      LinesCons(line, "");
      assert line + "\n" + "" == line + tail;
    }
  }

  /** A section made of a blank line and one numbered line holds one item. */
  lemma OneItemSection(text: string, tail: string)
    requires '\n' !in text && text != []
    requires !IsWhitespace(text[0]) && !IsWhitespace(text[|text| - 1])
    requires tail == "" || tail == "\n"
    ensures ParseSection("\n1. " + text + tail) == [text]
  {
    var line := "1. " + text;
    assert line[|line| - 1] == text[|text| - 1];
    OneItemLines(line, tail);
    assert "\n" + line + tail == "\n1. " + text + tail;
    BlankThenLine(line);
    CleanLineNumbered(text);
  }

  /** A blank line contributes nothing; a line starting with a
      non-whitespace character contributes its cleaned text. */
  lemma BlankThenLine(line: string)
    requires line != [] && !IsWhitespace(line[0])
    ensures ParseItems(["", line]) == [CleanLine(line)]
  {
    ParseItemsAppend([""], [line]);
    assert [""] + [line] == ["", line];
    ParseItemsSingle("");
    TrimKeeps("");
    ParseItemsSingle(line);
    TrimEmptyIffBlank(line);
  }

  /** The decomposition of a one-question, one-statement answer in the
      format the decomposition prompt asks for. */
  lemma OneQuestionOneStatement(question: string, statement: string)
    requires '\n' !in question && question != []
    requires !IsWhitespace(question[0]) && !IsWhitespace(question[|question| - 1])
    requires '\n' !in statement && statement != []
    requires !IsWhitespace(statement[0]) && !IsWhitespace(statement[|statement| - 1])
    requires !Contains(question, QuestionsHeader) && !Contains(question, NonQuestionsHeader)
    requires !Contains(statement, NonQuestionsHeader)
    ensures SplitQuestionsAndNonQuestions(
              QuestionsHeader + "\n1. " + question + "\n" + NonQuestionsHeader + "\n1. " + statement)
         == ([question], [statement])
  {
    var q := "1. " + question;
    var second := "\n1. " + statement;
    LacksAfterPrefix("1. ", question, QuestionsHeader);
    LacksAfterPrefix("1. ", question, NonQuestionsHeader);
    LacksAfterPrefix("\n1. ", statement, NonQuestionsHeader);
    WellFormedAnswer(q, second);
    OneItemSection(question, "\n");
    OneItemSection(statement, "");
    MarkerAfterBreak();
    RegroupAnswer(QuestionsHeader, "\n", "1. ", question, NonQuestionsHeader, statement);
  }

  lemma MarkerAfterBreak()
    ensures "\n1. " == "\n" + "1. "
  {
  }

  /** Regrouping of the pieces of a one-question, one-statement answer. */
  lemma RegroupAnswer(h: string, nl: string, m: string, x: string, g: string, y: string)
    ensures h + (nl + m) + x + nl + g + (nl + m) + y == h + nl + (m + x) + nl + g + ((nl + m) + y)
    ensures nl + (m + x) + nl == (nl + m) + x + nl
    ensures (nl + m) + y + [] == (nl + m) + y
  {
  }
}
