/**
 * The advanced editor's passage tools: the line-by-line reader that turns an
 * assistant's answer into a title, a body and draft questions; the check run
 * before a passage is saved; and the edits to the passage list and to the
 * passage being edited. A listening script has the same shape (title, body,
 * questions) and the editor treats it identically.
 */
module AdvancedEditor {
  import opened Js
  import QuestionSchema

  // ------------------------------------------------------------ records

  /** A passage's sub-question as the editor holds it. */
  datatype SubQuestion = SubQuestion(id: string, question: string, options: seq<string>, answer: string, explanation: string)

  /** A reading passage: id, title, body text and its questions. */
  datatype Passage = Passage(id: string, title: string, text: string, questions: seq<SubQuestion>)

  // ------------------------------------------------------------ line patterns

  predicate StartsWith(s: string, prefix: string) {
    |prefix| <= |s| && s[..|prefix|] == prefix
  }

  predicate NotTerminator(c: char) {
    !IsLineTerminator(c)
  }

  /** Length of the longest prefix of s whose characters all satisfy p. */
  function Run(s: string, p: char -> bool): (n: nat)
    ensures n <= |s|
    ensures forall k :: 0 <= k < n ==> p(s[k])
    ensures n < |s| ==> !p(s[n])
    decreases |s|
  {
    if s == [] || !p(s[0]) then 0 else 1 + Run(s[1..], p)
  }

  /**
   * Where `.+` can start after a blank run of length w: the regex engine tries
   * the longest run first and gives blanks back one at a time until the next
   * character is one that `.` matches.
   */
  function TailStart(s: string, k: nat): (r: Option<nat>)
    requires k <= |s|
    ensures r.Some? ==> 1 <= r.value <= k && r.value < |s| && NotTerminator(s[r.value])
    ensures r.Some? ==> forall j :: r.value < j <= k && j < |s| ==> !NotTerminator(s[j])
    ensures r.None? ==> forall j :: 1 <= j <= k && j < |s| ==> !NotTerminator(s[j])
    decreases k
  {
    if k == 0 then None
    else if k < |s| && NotTerminator(s[k]) then Some(k)
    else TailStart(s, k - 1)
  }

  /** `/\s+(.+)/` matched at the start of s: the captured text, if the match succeeds. */
  function SpacedTail(s: string): (r: Option<string>)
    ensures r.Some? ==> |r.value| >= 1
  {
    match TailStart(s, Run(s, IsSpace))
    case None => None
    case Some(k) => Some(s[k..k + Run(s[k..], NotTerminator)])
  }

  /** `/^\d+\./`: digits, then a full stop. */
  predicate QuestionLine(line: string) {
    var d := Run(line, IsDigit);
    1 <= d < |line| && line[d] == '.'
  }

  /** `/^\d+\.\s+(.+)/`: the question text after the number. */
  function QuestionText(line: string): Option<string> {
    if QuestionLine(line) then SpacedTail(line[Run(line, IsDigit) + 1..]) else None
  }

  predicate IsOptionLetter(c: char) {
    'A' <= c <= 'D'
  }

  /** `/^\s+[A-D]\)/`: an indented option letter and a closing parenthesis. */
  predicate OptionLine(line: string) {
    var w := Run(line, IsSpace);
    1 <= w && w + 1 < |line| && IsOptionLetter(line[w]) && line[w + 1] == ')'
  }

  /** `/^\s+([A-D])\)\s+(.+)/`: the option's letter and its text. */
  function OptionMatch(line: string): Option<(char, string)> {
    if OptionLine(line) then
      var w := Run(line, IsSpace);
      match SpacedTail(line[w + 2..])
      case None => None
      case Some(t) => Some((line[w], t))
    else None
  }

  /** A blank run followed by a word without line breaks yields exactly that word. */
  lemma SpacedTailOfWord(blanks: string, word: string)
    requires |blanks| >= 1 && AllSpace(blanks)
    requires |word| >= 1 && !IsSpace(word[0])
    requires forall k :: 0 <= k < |word| ==> NotTerminator(word[k])
    ensures SpacedTail(blanks + word) == Some(word)
  {
    var s := blanks + word;
    RunPrefix(blanks, word, IsSpace);
    assert Run(s, IsSpace) == |blanks|;
    assert s[|blanks|] == word[0];
    assert TailStart(s, |blanks|) == Some(|blanks|);
    assert s[|blanks|..] == word;
    RunAll(word, NotTerminator);
    assert s[|blanks|..|blanks| + |word|] == word;
    assert SpacedTail(s) == Some(s[|blanks|..|blanks| + Run(s[|blanks|..], NotTerminator)]);
  }

  lemma {:induction false} RunPrefix(a: string, b: string, p: char -> bool)
    requires forall k :: 0 <= k < |a| ==> p(a[k])
    requires b != [] ==> !p(b[0])
    ensures Run(a + b, p) == |a|
    decreases |a|
  {
    if a == [] {
      assert a + b == b;
    } else {
      assert (a + b)[1..] == a[1..] + b;
      RunPrefix(a[1..], b, p);
    }
  }

  lemma {:induction false} RunAll(s: string, p: char -> bool)
    requires forall k :: 0 <= k < |s| ==> p(s[k])
    ensures Run(s, p) == |s|
    decreases |s|
  {
    if s != [] {
      RunAll(s[1..], p);
    }
  }

  /** A numbered line `n. word` yields its word as the question text. */
  lemma NumberedLine(n: nat, word: string)
    requires |word| >= 1 && !IsSpace(word[0])
    requires forall k :: 0 <= k < |word| ==> NotTerminator(word[k])
    ensures QuestionLine(NatToString(n) + ". " + word)
    ensures QuestionText(NatToString(n) + ". " + word) == Some(word)
  {
    DigitsLine(NatToString(n), word);
  }

  /** Any run of digits, a full stop, one blank and a word: the word is the question text. */
  lemma DigitsLine(digits: string, word: string)
    requires |digits| >= 1 && AllDigits(digits)
    requires |word| >= 1 && !IsSpace(word[0])
    requires forall k :: 0 <= k < |word| ==> NotTerminator(word[k])
    ensures QuestionLine(digits + ". " + word)
    ensures QuestionText(digits + ". " + word) == Some(word)
  {
    var line := digits + ". " + word;
    assert line == digits + (". " + word);
    RunPrefix(digits, ". " + word, IsDigit);
    assert line[|digits|] == '.';
    assert line[|digits| + 1..] == " " + word;
    SpacedTailOfWord(" ", word);
  }

  /** An indented option line `   L) word` yields its letter and word. */
  lemma IndentedOption(letter: char, word: string)
    requires IsOptionLetter(letter)
    requires |word| >= 1 && !IsSpace(word[0])
    requires forall k :: 0 <= k < |word| ==> NotTerminator(word[k])
    ensures OptionLine("   " + [letter] + ") " + word)
    ensures OptionMatch("   " + [letter] + ") " + word) == Some((letter, word))
  {
    BlanksOption("   ", letter, word);
  }

  /** Any indentation, an option letter, a parenthesis, one blank and a word. */
  lemma BlanksOption(blanks: string, letter: char, word: string)
    requires |blanks| >= 1 && AllSpace(blanks)
    requires IsOptionLetter(letter)
    requires |word| >= 1 && !IsSpace(word[0])
    requires forall k :: 0 <= k < |word| ==> NotTerminator(word[k])
    ensures OptionLine(blanks + [letter] + ") " + word)
    ensures OptionMatch(blanks + [letter] + ") " + word) == Some((letter, word))
  {
    var line := blanks + [letter] + ") " + word;
    var w := |blanks|;
    assert line == blanks + ([letter] + ") " + word);
    RunPrefix(blanks, [letter] + ") " + word, IsSpace);
    assert line[w] == letter && line[w + 1] == ')';
    assert line[w + 2..] == " " + word;
    SpacedTailOfWord(" ", word);
  }

  /**
   * Backtracking gives a question of a single blank: "1." followed by two
   * blanks matches with the second blank as its text.
   */
  lemma BlankQuestionText()
    ensures QuestionText("1.  ") == Some(" ")
  {
    var line := "1.  ";
    assert Run(line, IsDigit) == 1 by {
      assert Run(line[1..], IsDigit) == 0;
    }
    var rest := line[2..];
    assert rest == "  ";
    assert Run(rest, IsSpace) == 2 by {
      assert rest[1..] == " ";
      assert Run(rest[1..], IsSpace) == 1;
    }
    assert TailStart(rest, 2) == Some(1);
    assert rest[1..] == " ";
    assert Run(rest[1..], NotTerminator) == 1;
    assert rest[1..1 + 1] == " ";
    assert SpacedTail(rest) == Some(" ");
    assert QuestionLine(line);
    assert QuestionText(line) == SpacedTail(rest);
  }

  // ------------------------------------------------------------ the reader

  /** Which part of the answer the reader is in. */
  datatype Section = TitleSection | TextSection | QuestionsSection

  /** A question as read: its text, the options seen so far and the answer letter. */
  datatype Draft = Draft(question: string, options: seq<string>, answer: string)

  /** The reader's variables: `title`, `text`, `questions` and `currentSection`. */
  datatype Parsed = Parsed(title: string, text: string, questions: seq<Draft>, section: Section)

  const Start := Parsed("", "", [], TitleSection)

  /** The line that switches to the questions: "## 문제 예시:" ("example questions"). */
  const QuestionsMarker: string := "## \U{BB38}\U{C81C} \U{C608}\U{C2DC}:"

  /** The option text pushed for a matched option line. */
  function OptionText(letter: char, word: string): string {
    [letter] + ") " + word
  }

  /** Pushing an option onto a draft; the first option's letter becomes the answer. */
  function AddDraftOption(d: Draft, letter: char, word: string): Draft {
    var options := d.options + [OptionText(letter, word)];
    d.(options := options, answer := if |options| == 1 then [letter] else d.answer)
  }

  /** What one line does to the reader's variables. */
  function Step(st: Parsed, line: string): Parsed {
    if StartsWith(line, "# ") then st.(title := line[2..], section := TextSection)
    else if StartsWith(line, QuestionsMarker) then st.(section := QuestionsSection)
    else if st.section == TextSection && Trim(line) != "" then st.(text := st.text + line + "\n")
    else if st.section == QuestionsSection && QuestionLine(line) then
      match QuestionText(line)
      case Some(q) => st.(questions := st.questions + [Draft(q, [], "")])
      case None => st
    else if st.section == QuestionsSection && OptionLine(line) then
      match OptionMatch(line)
      case Some((letter, word)) =>
        if |st.questions| > 0 then
          var last := |st.questions| - 1;
          st.(questions := st.questions[last := AddDraftOption(st.questions[last], letter, word)])
        else st
      case None => st
    else st
  }

  /** The reader's variables after the given lines, read in order. */
  function Parse(lines: seq<string>): Parsed {
    if lines == [] then Start else Step(Parse(lines[..|lines| - 1]), lines[|lines| - 1])
  }

  /**
   * The loop of `applyAIResponseToPassage` over the answer's lines (the
   * script variant runs the same loop).
   */
  method ParseResponse(response: string) returns (title: string, text: string, questions: seq<Draft>)
    ensures var p := Parse(Split(response, '\n'));
      title == p.title && text == p.text && questions == p.questions
  {
    var lines := Split(response, '\n');
    title, text, questions := "", "", [];
    var section := TitleSection;
    var i := 0;
    while i < |lines|
      invariant 0 <= i <= |lines|
      invariant Parse(lines[..i]) == Parsed(title, text, questions, section)
    {
      title, text, questions, section := ReadLine(title, text, questions, section, lines[i]);
      assert lines[..i + 1][..i] == lines[..i];
      i := i + 1;
    }
    assert lines[..|lines|] == lines;
  }

  /** The body of the reader's loop: one line's effect on its variables. */
  method ReadLine(title0: string, text0: string, questions0: seq<Draft>, section0: Section, line: string)
    returns (title: string, text: string, questions: seq<Draft>, section: Section)
    ensures Parsed(title, text, questions, section) == Step(Parsed(title0, text0, questions0, section0), line)
  {
    title, text, questions, section := title0, text0, questions0, section0;
    if StartsWith(line, "# ") {
      title := line[2..];
      section := TextSection;
    } else if StartsWith(line, QuestionsMarker) {
      section := QuestionsSection;
    } else if section == TextSection && Trim(line) != "" {
      text := text + line + "\n";
    } else if section == QuestionsSection && QuestionLine(line) {
      var m := QuestionText(line);
      if m.Some? {
        questions := questions + [Draft(m.value, [], "")];
      }
    } else if section == QuestionsSection && OptionLine(line) {
      var m := OptionMatch(line);
      if m.Some? && |questions| > 0 {
        var (letter, word) := m.value;
        var current := questions[|questions| - 1];
        current := current.(options := current.options + [OptionText(letter, word)]);
        if |current.options| == 1 {
          current := current.(answer := [letter]);
        }
        questions := questions[|questions| - 1 := current];
      }
    }
  }

  /**
   * A draft as the reader leaves it: every option is a letter A-D, ") " and
   * some text; the answer is empty exactly while there are no options, and
   * otherwise is the first option's letter.
   */
  predicate DraftOk(d: Draft) {
    && (forall k :: 0 <= k < |d.options| ==>
          |d.options[k]| >= 4 && IsOptionLetter(d.options[k][0]) && d.options[k][1..3] == ") ")
    && (d.answer == "" <==> d.options == [])
    && (d.options != [] ==> d.answer == [d.options[0][0]])
  }

  predicate DraftsOk(st: Parsed) {
    forall k :: 0 <= k < |st.questions| ==> DraftOk(st.questions[k])
  }

  lemma OptionMatchShape(line: string)
    requires OptionMatch(line).Some?
    ensures IsOptionLetter(OptionMatch(line).value.0) && |OptionMatch(line).value.1| >= 1
  {
  }

  /** Pushing a lettered option keeps a draft well formed. */
  lemma AddOptionKeepsDraft(d: Draft, letter: char, word: string)
    requires DraftOk(d) && IsOptionLetter(letter) && |word| >= 1
    ensures DraftOk(AddDraftOption(d, letter, word))
  {
    assert OptionText(letter, word)[1..3] == ") ";
  }

  lemma StepKeepsDrafts(st: Parsed, line: string)
    requires DraftsOk(st)
    ensures DraftsOk(Step(st, line))
  {
    if StartsWith(line, "# ") || StartsWith(line, QuestionsMarker) || (st.section == TextSection && Trim(line) != "") {
    } else if st.section == QuestionsSection && QuestionLine(line) {
    } else if st.section == QuestionsSection && OptionLine(line) && OptionMatch(line).Some? && |st.questions| > 0 {
      var (letter, word) := OptionMatch(line).value;
      OptionMatchShape(line);
      AddOptionKeepsDraft(st.questions[|st.questions| - 1], letter, word);
    }
  }

  /** Every draft the reader produces is well formed. */
  lemma {:induction false} ParsedDraftsOk(lines: seq<string>)
    ensures DraftsOk(Parse(lines))
  {
    if lines != [] {
      ParsedDraftsOk(lines[..|lines| - 1]);
      StepKeepsDrafts(Parse(lines[..|lines| - 1]), lines[|lines| - 1]);
    }
  }

  /** Lines before the first title line (and any marker) leave the reader where it started. */
  lemma {:induction false} PreambleIgnored(lines: seq<string>)
    requires forall k :: 0 <= k < |lines| ==> !StartsWith(lines[k], "# ") && !StartsWith(lines[k], QuestionsMarker)
    ensures Parse(lines) == Start
  {
    if lines != [] {
      PreambleIgnored(lines[..|lines| - 1]);
    }
  }

  /**
   * Reading never takes anything back: the text only grows at its end, no
   * draft is dropped, and a draft keeps its question and its earlier options.
   */
  predicate Extends(a: Parsed, b: Parsed) {
    && a.text <= b.text
    && |a.questions| <= |b.questions|
    && forall k :: 0 <= k < |a.questions| ==>
         b.questions[k].question == a.questions[k].question && a.questions[k].options <= b.questions[k].options
  }

  lemma SameDraftsExtend(st: Parsed, st': Parsed)
    requires st.text <= st'.text && st'.questions == st.questions
    ensures Extends(st, st')
  {
  }

  lemma NewDraftExtends(st: Parsed, d: Draft)
    ensures Extends(st, st.(questions := st.questions + [d]))
  {
  }

  lemma NewOptionExtends(st: Parsed, letter: char, word: string)
    requires |st.questions| > 0
    ensures var last := |st.questions| - 1;
      Extends(st, st.(questions := st.questions[last := AddDraftOption(st.questions[last], letter, word)]))
  {
    var last := |st.questions| - 1;
    assert AddDraftOption(st.questions[last], letter, word).options[..|st.questions[last].options|]
      == st.questions[last].options;
  }

  lemma StepExtends(st: Parsed, line: string)
    ensures Extends(st, Step(st, line))
  {
    if StartsWith(line, "# ") || StartsWith(line, QuestionsMarker) {
      SameDraftsExtend(st, Step(st, line));
    } else if st.section == TextSection && Trim(line) != "" {
      SameDraftsExtend(st, Step(st, line));
    } else if st.section == QuestionsSection && QuestionLine(line) {
      match QuestionText(line)
      case Some(q) => NewDraftExtends(st, Draft(q, [], ""));
      case None => SameDraftsExtend(st, st);
    } else if st.section == QuestionsSection && OptionLine(line) && OptionMatch(line).Some? && |st.questions| > 0 {
      var (letter, word) := OptionMatch(line).value;
      NewOptionExtends(st, letter, word);
    } else {
      SameDraftsExtend(st, st);
    }
  }

  lemma ExtendsTrans(a: Parsed, b: Parsed, c: Parsed)
    requires Extends(a, b) && Extends(b, c)
    ensures Extends(a, c)
  {
    assert a.text <= c.text by {
      assert b.text[..|a.text|] == a.text;
    }
    forall k | 0 <= k < |a.questions|
      ensures a.questions[k].options <= c.questions[k].options
    {
      assert c.questions[k].options[..|b.questions[k].options|] == b.questions[k].options;
    }
  }

  lemma LastLineExtends(lines: seq<string>)
    requires lines != []
    ensures Extends(Parse(lines[..|lines| - 1]), Parse(lines))
  {
    StepExtends(Parse(lines[..|lines| - 1]), lines[|lines| - 1]);
  }

  /** What was read from the first i lines survives the rest. */
  lemma {:induction false} ParseExtends(lines: seq<string>, i: nat)
    requires i <= |lines|
    ensures Extends(Parse(lines[..i]), Parse(lines))
    decreases |lines| - i
  {
    if i == |lines| {
      assert lines[..i] == lines;
    } else {
      var n := |lines| - 1;
      assert lines[..n][..i] == lines[..i];
      ParseExtends(lines[..n], i);
      LastLineExtends(lines);
      ExtendsTrans(Parse(lines[..i]), Parse(lines[..n]), Parse(lines));
    }
  }

  /** In the questions section, a numbered line `n. word` starts a new draft with no options. */
  lemma NumberedLineStep(st: Parsed, n: nat, word: string)
    requires st.section == QuestionsSection
    requires |word| >= 1 && !IsSpace(word[0])
    requires forall k :: 0 <= k < |word| ==> NotTerminator(word[k])
    ensures Step(st, NatToString(n) + ". " + word) == st.(questions := st.questions + [Draft(word, [], "")])
  {
    var line := NatToString(n) + ". " + word;
    NumberedLine(n, word);
    assert IsDigit(line[0]);
    assert !StartsWith(line, "# ") by {
      if |line| >= 2 {
        assert line[..2][0] == line[0];
      }
    }
    assert !StartsWith(line, QuestionsMarker) by {
      if |QuestionsMarker| <= |line| {
        assert line[..|QuestionsMarker|][0] == line[0];
      }
    }
    assert QuestionText(line) == Some(word);
  }

  /**
   * In the questions section, an indented option line adds `L) word` to the
   * last draft (setting its answer to L if it is the first option), and is
   * dropped when there is no draft yet.
   */
  lemma OptionLineStep(st: Parsed, letter: char, word: string)
    requires st.section == QuestionsSection
    requires IsOptionLetter(letter)
    requires |word| >= 1 && !IsSpace(word[0])
    requires forall k :: 0 <= k < |word| ==> NotTerminator(word[k])
    ensures var last := |st.questions| - 1;
      Step(st, "   " + [letter] + ") " + word) ==
        if st.questions == [] then st
        else st.(questions := st.questions[last := AddDraftOption(st.questions[last], letter, word)])
  {
    var line := "   " + [letter] + ") " + word;
    IndentedOption(letter, word);
    assert line[0] == ' ';
    assert !StartsWith(line, "# ") by {
      assert line[..2][0] == line[0];
    }
    assert !StartsWith(line, QuestionsMarker) by {
      if |QuestionsMarker| <= |line| {
        assert line[..|QuestionsMarker|][0] == line[0];
      }
    }
    assert !QuestionLine(line) by {
      assert Run(line, IsDigit) == 0;
    }
  }

  /** A title line sets the title (without its "# ") and starts the text, whatever came before. */
  lemma TitleLine(lines: seq<string>, line: string)
    requires StartsWith(line, "# ")
    ensures Parse(lines + [line]).title == line[2..]
    ensures Parse(lines + [line]).section == TextSection
    ensures Parse(lines + [line]).text == Parse(lines).text
  {
    assert (lines + [line])[..|lines|] == lines;
  }

  // ------------------------------------------------------------ applying the answer

  const DefaultOptions: seq<string> := ["A) ", "B) ", "C) ", "D) "]

  /** `${id}_Q${n}`: the id the editor gives a passage's n-th question. */
  function QuestionId(passageId: string, n: nat): string {
    passageId + "_Q" + NatToString(n)
  }

  /** The drafts as questions: numbered ids, default options when none were read, answer "A" when empty. */
  function Materialize(passageId: string, drafts: seq<Draft>): seq<SubQuestion> {
    seq(|drafts|, k requires 0 <= k < |drafts| =>
      SubQuestion(QuestionId(passageId, k + 1), drafts[k].question,
                  if drafts[k].options != [] then drafts[k].options else DefaultOptions,
                  if drafts[k].answer != "" then drafts[k].answer else "A", ""))
  }

  /**
   * The passage being edited after an answer is applied. When questions were
   * read, the later update (built from the passage as it was) wins: title and
   * trimmed text replace the old ones only when non-empty. Otherwise a
   * non-empty title replaces the title and the trimmed text (even empty)
   * replaces the text.
   */
  function Apply(p: Passage, title: string, text: string, drafts: seq<Draft>): Passage {
    var body := Trim(text);
    if |drafts| > 0 then
      p.(title := if title != "" then title else p.title,
         text := if body != "" then body else p.text,
         questions := Materialize(p.id, drafts))
    else if title != "" then p.(title := title, text := body)
    else p
  }

  /** The id suffixes read back to their numbers, so distinct numbers give distinct ids. */
  lemma QuestionIdInjective(passageId: string, a: nat, b: nat)
    requires QuestionId(passageId, a) == QuestionId(passageId, b)
    ensures a == b
  {
    var prefix := passageId + "_Q";
    assert QuestionId(passageId, a)[|prefix|..] == NatToString(a);
    assert QuestionId(passageId, b)[|prefix|..] == NatToString(b);
    ParseNatToString(a);
    ParseNatToString(b);
  }

  /** Applied questions have distinct ids `${id}_Q1`, `${id}_Q2`, ... in order. */
  lemma MaterializedIds(passageId: string, drafts: seq<Draft>)
    ensures var qs := Materialize(passageId, drafts);
      && |qs| == |drafts|
      && (forall k :: 0 <= k < |qs| ==> qs[k].id == QuestionId(passageId, k + 1) && qs[k].question == drafts[k].question)
      && (forall j, k :: 0 <= j < k < |qs| ==> qs[j].id != qs[k].id)
  {
    var qs := Materialize(passageId, drafts);
    forall j, k | 0 <= j < k < |qs|
      ensures qs[j].id != qs[k].id
    {
      if qs[j].id == qs[k].id {
        QuestionIdInjective(passageId, j + 1, k + 1);
      }
    }
  }

  /**
   * From well-formed drafts every applied question has at least one option,
   * and its answer is a letter A-D that starts the first option.
   */
  lemma MaterializedAnswers(passageId: string, drafts: seq<Draft>)
    requires forall k :: 0 <= k < |drafts| ==> DraftOk(drafts[k])
    ensures var qs := Materialize(passageId, drafts);
      forall k :: 0 <= k < |qs| ==>
        |qs[k].options| >= 1 && |qs[k].options[0]| >= 1 && |qs[k].answer| == 1 && IsOptionLetter(qs[k].answer[0]) && qs[k].options[0][0] == qs[k].answer[0]
  {
    var qs := Materialize(passageId, drafts);
    forall k | 0 <= k < |qs|
      ensures |qs[k].options| >= 1 && |qs[k].options[0]| >= 1 && |qs[k].answer| == 1 && IsOptionLetter(qs[k].answer[0]) && qs[k].options[0][0] == qs[k].answer[0]
    {
      assert DraftOk(drafts[k]);
      if drafts[k].options == [] {
        assert qs[k].options == DefaultOptions && qs[k].answer == "A";
      }
    }
  }

  /** Applying a read answer with questions installs exactly the materialized drafts. */
  lemma AppliedQuestions(p: Passage, lines: seq<string>)
    requires |Parse(lines).questions| > 0
    ensures var st := Parse(lines);
      var qs := Apply(p, st.title, st.text, st.questions).questions;
      && qs == Materialize(p.id, st.questions)
      && forall k :: 0 <= k < |qs| ==> |qs[k].options| >= 1 && |qs[k].options[0]| >= 1 && |qs[k].answer| == 1 && IsOptionLetter(qs[k].answer[0]) && qs[k].options[0][0] == qs[k].answer[0]
  {
    ParsedDraftsOk(lines);
    MaterializedAnswers(p.id, Parse(lines).questions);
  }

  /** An empty answer changes nothing (the editor also skips it outright). */
  lemma EmptyAnswerChangesNothing(p: Passage)
    ensures var st := Parse(Split("", '\n')); Apply(p, st.title, st.text, st.questions) == p
  {
    assert Split("", '\n') == [""];
    assert [""][..0] == [];
  }

  /** With a title but no questions, the title and the trimmed text replace the passage's. */
  lemma TitleWithoutQuestions(p: Passage, title: string, text: string)
    requires title != ""
    ensures Apply(p, title, text, []) == p.(title := title, text := Trim(text))
    ensures Apply(p, title, text, []).questions == p.questions
  {
  }

  // ------------------------------------------------------------ saving

  /** The first problem `savePassage` reports. */
  datatype SaveError = MissingTitle | MissingText | NoQuestions | BlankQuestion | TooFewOptions

  /** `!s.trim()`: nothing but whitespace (see BlankMeansTrimmedEmpty). */
  predicate Blank(s: string) {
    AllSpace(s)
  }

  lemma BlankMeansTrimmedEmpty(s: string)
    ensures Blank(s) <==> Trim(s) == ""
  {
    TrimEnds(s);
  }

  predicate QuestionOk(q: SubQuestion) {
    !Blank(q.question) && |q.options| >= 2
  }

  /** The position of the first question the per-question loop rejects, or the length when none is. */
  function FirstBadIndex(qs: seq<SubQuestion>): (i: nat)
    ensures i <= |qs|
    ensures forall j :: 0 <= j < i ==> QuestionOk(qs[j])
    ensures i < |qs| ==> !QuestionOk(qs[i])
  {
    if qs == [] then 0
    else if !QuestionOk(qs[0]) then 0
    else 1 + FirstBadIndex(qs[1..])
  }

  /** The per-question loop's verdict: the first rejected question decides which error is shown. */
  function FirstBadQuestion(qs: seq<SubQuestion>): Option<SaveError> {
    var i := FirstBadIndex(qs);
    if i == |qs| then None
    else if Blank(qs[i].question) then Some(BlankQuestion)
    else Some(TooFewOptions)
  }

  /** The checks of `savePassage` in order; the first failure is the one reported. */
  function SaveCheck(p: Passage): Option<SaveError> {
    if Blank(p.title) then Some(MissingTitle)
    else if Blank(p.text) then Some(MissingText)
    else if |p.questions| == 0 then Some(NoQuestions)
    else FirstBadQuestion(p.questions)
  }

  /** A passage the editor accepts. */
  predicate Saveable(p: Passage) {
    && !Blank(p.title) && !Blank(p.text) && |p.questions| >= 1
    && forall k :: 0 <= k < |p.questions| ==> QuestionOk(p.questions[k])
  }

  /**
   * The save check passes exactly for saveable passages, each error is
   * reported only when every earlier check passed, and a question error names
   * the first question at fault.
   */
  lemma SaveCheckMeaning(p: Passage)
    ensures SaveCheck(p) == None <==> Saveable(p)
    ensures SaveCheck(p) == Some(MissingTitle) <==> Blank(p.title)
    ensures SaveCheck(p) == Some(MissingText) <==> !Blank(p.title) && Blank(p.text)
    ensures SaveCheck(p) == Some(NoQuestions) <==> !Blank(p.title) && !Blank(p.text) && p.questions == []
    ensures SaveCheck(p) in {Some(BlankQuestion), Some(TooFewOptions)} ==>
      var i := FirstBadIndex(p.questions);
      && !Blank(p.title) && !Blank(p.text) && i < |p.questions|
      && (forall j :: 0 <= j < i ==> QuestionOk(p.questions[j]))
      && (SaveCheck(p) == Some(BlankQuestion) <==> Blank(p.questions[i].question))
      && (SaveCheck(p) == Some(TooFewOptions) ==> |p.questions[i].options| < 2)
  {
  }

  /** A blank question the editor adds blocks the save of an otherwise saveable passage. */
  lemma NewQuestionBlocksSave(p: Passage)
    requires Saveable(p)
    ensures SaveCheck(WithNewQuestion(p)) == Some(BlankQuestion)
  {
    var qs := WithNewQuestion(p).questions;
    assert forall j :: 0 <= j < |p.questions| ==> qs[j] == p.questions[j];
    assert Blank(qs[|p.questions|].question);
    FirstBadAt(qs, |p.questions|);
  }

  /** The first rejected question is the first one that is not fine. */
  lemma FirstBadAt(qs: seq<SubQuestion>, i: nat)
    requires i <= |qs|
    requires forall j :: 0 <= j < i ==> QuestionOk(qs[j])
    requires i < |qs| ==> !QuestionOk(qs[i])
    ensures FirstBadIndex(qs) == i
  {
  }

  /** The save check as `savePassage` runs it, with its loop over the questions. */
  method CheckPassage(p: Passage) returns (err: Option<SaveError>)
    ensures err == SaveCheck(p)
  {
    if Blank(p.title) {
      return Some(MissingTitle);
    }
    if Blank(p.text) {
      return Some(MissingText);
    }
    if |p.questions| == 0 {
      return Some(NoQuestions);
    }
    for i := 0 to |p.questions|
      invariant forall j :: 0 <= j < i ==> QuestionOk(p.questions[j])
    {
      var question := p.questions[i];
      if Blank(question.question) {
        FirstBadAt(p.questions, i);
        return Some(BlankQuestion);
      }
      if |question.options| < 2 {
        FirstBadAt(p.questions, i);
        return Some(TooFewOptions);
      }
    }
    FirstBadAt(p.questions, |p.questions|);
    return None;
  }

  // ------------------------------------------------------------ the passage list

  /** `findIndex` by id: the first passage with the id, or -1. */
  function FindIndex(ps: seq<Passage>, id: string): (r: int)
    ensures -1 <= r < |ps|
    ensures r >= 0 ==> ps[r].id == id && forall j :: 0 <= j < r ==> ps[j].id != id
    ensures r == -1 <==> forall j :: 0 <= j < |ps| ==> ps[j].id != id
  {
    if ps == [] then -1
    else if ps[0].id == id then 0
    else
      var r := FindIndex(ps[1..], id);
      if r == -1 then -1 else r + 1
  }

  /** Saving into the list: a new id is appended, an existing one replaced at its first position. */
  function Upsert(ps: seq<Passage>, p: Passage): seq<Passage> {
    var i := FindIndex(ps, p.id);
    if i == -1 then ps + [p] else ps[i := p]
  }

  /** `filter((p) => p.id !== id)`. */
  function Delete(ps: seq<Passage>, id: string): (r: seq<Passage>)
    ensures |r| <= |ps|
    ensures forall q :: q in r <==> q in ps && q.id != id
  {
    if ps == [] then []
    else
      var rest := Delete(ps[1..], id);
      assert forall q :: q in ps <==> q == ps[0] || q in ps[1..];
      if ps[0].id != id then [ps[0]] + rest else rest
  }

  predicate UniqueIds(ps: seq<Passage>) {
    forall j, k :: 0 <= j < k < |ps| ==> ps[j].id != ps[k].id
  }

  /**
   * A new id lands at the end and nothing else moves; an existing id keeps its
   * place, only that entry changes and the length stays.
   */
  lemma UpsertMeaning(ps: seq<Passage>, p: Passage)
    ensures p in Upsert(ps, p)
    ensures (forall j :: 0 <= j < |ps| ==> ps[j].id != p.id) ==> Upsert(ps, p) == ps + [p]
    ensures (exists j :: 0 <= j < |ps| && ps[j].id == p.id) ==>
      var i := FindIndex(ps, p.id);
      && |Upsert(ps, p)| == |ps| && Upsert(ps, p)[i] == p
      && forall j :: 0 <= j < |ps| && j != i ==> Upsert(ps, p)[j] == ps[j]
    ensures forall q :: q in Upsert(ps, p) && q != p ==> q in ps
  {
    var i := FindIndex(ps, p.id);
    var r := Upsert(ps, p);
    if i == -1 {
      assert r == ps + [p] && r[|ps|] == p;
    } else {
      assert r == ps[i := p] && r[i] == p;
      forall q | q in r && q != p
        ensures q in ps
      {
        var k :| 0 <= k < |r| && r[k] == q;
        assert k != i && ps[k] == q;
      }
    }
  }

  /** Saving the same passage twice is saving it once. */
  lemma UpsertIdempotent(ps: seq<Passage>, p: Passage)
    ensures Upsert(Upsert(ps, p), p) == Upsert(ps, p)
  {
    var i := FindIndex(ps, p.id);
    var r := Upsert(ps, p);
    if i == -1 {
      assert r[|ps|] == p;
      assert FindIndex(r, p.id) == |ps| by {
        assert forall j :: 0 <= j < |ps| ==> r[j].id != p.id;
      }
    } else {
      assert r[i].id == p.id;
      assert forall j :: 0 <= j < i ==> r[j] == ps[j];
      assert FindIndex(r, p.id) == i;
    }
  }

  /** Saving keeps ids unique. */
  lemma UpsertKeepsUnique(ps: seq<Passage>, p: Passage)
    requires UniqueIds(ps)
    ensures UniqueIds(Upsert(ps, p))
  {
  }

  /** Deleting keeps ids unique. */
  lemma {:induction false} DeleteKeepsUnique(ps: seq<Passage>, id: string)
    requires UniqueIds(ps)
    ensures UniqueIds(Delete(ps, id))
  {
    if ps != [] {
      DeleteKeepsUnique(ps[1..], id);
      var rest := Delete(ps[1..], id);
      if ps[0].id != id {
        var r := [ps[0]] + rest;
        forall j, k | 0 <= j < k < |r|
          ensures r[j].id != r[k].id
        {
          if j == 0 {
            assert r[k] in rest;
            assert r[k] in ps[1..];
          } else {
            assert r[j] == rest[j - 1] && r[k] == rest[k - 1];
          }
        }
      }
    }
  }

  lemma {:induction false} DeleteAppend(a: seq<Passage>, b: seq<Passage>, id: string)
    ensures Delete(a + b, id) == Delete(a, id) + Delete(b, id)
  {
    if a == [] {
      assert a + b == b;
    } else {
      assert (a + b)[1..] == a[1..] + b;
      DeleteAppend(a[1..], b, id);
    }
  }

  lemma {:induction false} DeleteReplaced(ps: seq<Passage>, i: nat, p: Passage)
    requires i < |ps| && ps[i].id == p.id
    ensures Delete(ps[i := p], p.id) == Delete(ps, p.id)
  {
    if i == 0 {
      assert ps[i := p][1..] == ps[1..];
    } else {
      assert ps[i := p][1..] == ps[1..][i - 1 := p];
      DeleteReplaced(ps[1..], i - 1, p);
    }
  }

  /** Deleting a passage's id undoes saving that passage. */
  lemma DeleteUndoesUpsert(ps: seq<Passage>, p: Passage)
    ensures Delete(Upsert(ps, p), p.id) == Delete(ps, p.id)
  {
    var i := FindIndex(ps, p.id);
    if i == -1 {
      DeleteAppend(ps, [p], p.id);
      assert Delete([p], p.id) == [];
    } else {
      DeleteReplaced(ps, i, p);
    }
  }

  /** Deleting an id that is not there changes nothing; deleting twice is deleting once. */
  lemma {:induction false} DeleteAbsent(ps: seq<Passage>, id: string)
    requires forall j :: 0 <= j < |ps| ==> ps[j].id != id
    ensures Delete(ps, id) == ps
  {
    if ps != [] {
      DeleteAbsent(ps[1..], id);
    }
  }

  lemma DeleteIdempotent(ps: seq<Passage>, id: string)
    ensures Delete(Delete(ps, id), id) == Delete(ps, id)
  {
    var r := Delete(ps, id);
    assert forall j :: 0 <= j < |r| ==> r[j] in r;
    DeleteAbsent(r, id);
  }

  // ------------------------------------------------------------ the passage being edited

  /** The blank question `addQuestionToPassage` appends. */
  function NewQuestion(p: Passage): SubQuestion {
    SubQuestion(QuestionId(p.id, |p.questions| + 1), "", DefaultOptions, "A", "")
  }

  function WithNewQuestion(p: Passage): Passage {
    p.(questions := p.questions + [NewQuestion(p)])
  }

  /** `splice(index, 1)`'s start: negative indices count from the end, large ones clamp to the length. */
  function SpliceStart(len: nat, index: int): (k: nat)
    ensures k <= len
    ensures 0 <= index <= len ==> k == index
    ensures index < 0 && len + index >= 0 ==> k == len + index
  {
    if index < 0 then (if len + index < 0 then 0 else len + index)
    else if index > len then len
    else index
  }

  /** `splice(index, 1)` on a copy. */
  function RemoveAt(qs: seq<SubQuestion>, index: int): seq<SubQuestion> {
    var k := SpliceStart(|qs|, index);
    if k < |qs| then qs[..k] + qs[k + 1..] else qs
  }

  /**
   * An index inside the list removes exactly that question and shifts the
   * later ones down; -1 removes the last; an index at or past the end removes
   * nothing.
   */
  lemma RemoveAtMeaning(qs: seq<SubQuestion>, index: int)
    ensures 0 <= index < |qs| ==>
      && |RemoveAt(qs, index)| == |qs| - 1
      && (forall j :: 0 <= j < index ==> RemoveAt(qs, index)[j] == qs[j])
      && (forall j :: index <= j < |qs| - 1 ==> RemoveAt(qs, index)[j] == qs[j + 1])
    ensures |qs| >= 1 ==> RemoveAt(qs, -1) == qs[..|qs| - 1]
    ensures index >= |qs| ==> RemoveAt(qs, index) == qs
  {
  }

  /** `removeQuestionFromPassage`: refused while one question or fewer is left. */
  function WithoutQuestion(p: Passage, index: int): Passage {
    if |p.questions| <= 1 then p else p.(questions := RemoveAt(p.questions, index))
  }

  /**
   * Ids come from the count, so removing the first of two questions and then
   * adding one repeats the id of the one that stayed.
   */
  lemma AddAfterRemoveRepeatsId(p: Passage, a: SubQuestion, b: SubQuestion)
    requires p.questions == [a, b] && b.id == QuestionId(p.id, 2)
    ensures var q := WithNewQuestion(WithoutQuestion(p, 0));
      |q.questions| == 2 && q.questions[0].id == q.questions[1].id
  {
    assert RemoveAt(p.questions, 0) == [b];
  }

  /** A passage never drops below one question by removal, and removal never adds one. */
  lemma RemoveKeepsOne(p: Passage, index: int)
    ensures |p.questions| >= 1 ==> |WithoutQuestion(p, index).questions| >= 1
    ensures |WithoutQuestion(p, index).questions| <= |p.questions|
    ensures |WithoutQuestion(p, index).questions| >= |p.questions| - 1
  {
  }

  /** The option label the "add option" button appends: the next letter, then ") ". */
  function NextOptionLabel(count: nat): string
    requires 65 + count < 0xD800
  {
    [(65 + count) as char] + ") "
  }

  /**
   * Up to the 26th option the label reads back to its letter; the 27th
   * option is labelled "[) " and reads back to no letter at all.
   */
  lemma NextOptionLabelReads(count: nat)
    requires 65 + count < 0xD800
    ensures count < 26 ==> QuestionSchema.ParseOptionValue(NextOptionLabel(count)) == [(65 + count) as char]
    ensures count == 26 ==> NextOptionLabel(count) == "[) " && QuestionSchema.ParseOptionValue(NextOptionLabel(count)) == ""
  {
    if count < 26 {
      QuestionSchema.OptionLabelRoundTrip(count, "");
      assert QuestionSchema.OptionLabel(count) + "" == NextOptionLabel(count);
    }
  }

  /** The editor's state: the passage list, the passage being edited and the feedback shown. */
  datatype Notice = Added | Updated | Deleted

  class Editor {
    var passages: seq<Passage>
    var editing: Option<Passage>
    var validationErrors: seq<SaveError>
    var successMessage: Option<Notice>

    /** The editor once the passages have loaded. */
    constructor(passages: seq<Passage>)
      ensures this.passages == passages && editing == None
      ensures validationErrors == [] && successMessage == None
    {
      this.passages := passages;
      editing := None;
      validationErrors := [];
      successMessage := None;
    }

    /** `editPassage`: edit a copy of the passage, clearing the feedback. */
    method EditPassage(p: Passage)
      modifies this`editing, this`validationErrors, this`successMessage
      ensures editing == Some(p) && validationErrors == [] && successMessage == None
    {
      editing := Some(p);
      validationErrors := [];
      successMessage := None;
    }

    /**
     * `savePassage`: a failed check shows its one error and changes nothing
     * else; a passing passage is upserted, the matching notice shown and the
     * form closed. Unique ids stay unique.
     */
    method SavePassage()
      modifies this
      ensures old(editing).None? ==>
        passages == old(passages) && editing == old(editing)
        && validationErrors == old(validationErrors) && successMessage == old(successMessage)
      ensures old(editing).Some? && SaveCheck(old(editing).value).Some? ==>
        passages == old(passages) && editing == old(editing)
        && validationErrors == [SaveCheck(old(editing).value).value] && successMessage == old(successMessage)
      ensures old(editing).Some? && SaveCheck(old(editing).value).None? ==>
        && passages == Upsert(old(passages), old(editing).value)
        && successMessage == Some(if FindIndex(old(passages), old(editing).value.id) == -1 then Added else Updated)
        && editing == None && validationErrors == []
      ensures UniqueIds(old(passages)) ==> UniqueIds(passages)
    {
      if editing.None? {
        return;
      }
      var p := editing.value;
      var err := CheckPassage(p);
      if err.Some? {
        validationErrors := [err.value];
        return;
      }
      var isNew := FindIndex(passages, p.id) == -1;
      if UniqueIds(passages) {
        UpsertKeepsUnique(passages, p);
      }
      if isNew {
        passages := passages + [p];
      } else {
        var index := FindIndex(passages, p.id);
        passages := passages[index := p];
      }
      successMessage := Some(if isNew then Added else Updated);
      editing := None;
      validationErrors := [];
    }

    /**
     * `deletePassage`, once confirmed: every passage with the id goes, the
     * others keep their order, and an open form for it closes.
     */
    method DeletePassage(id: string, confirmed: bool)
      modifies this`passages, this`editing, this`successMessage
      ensures !confirmed ==> passages == old(passages) && editing == old(editing) && successMessage == old(successMessage)
      ensures confirmed ==>
        && passages == Delete(old(passages), id) && successMessage == Some(Deleted)
        && editing == (if old(editing).Some? && old(editing).value.id == id then None else old(editing))
      ensures UniqueIds(old(passages)) ==> UniqueIds(passages)
    {
      if !confirmed {
        return;
      }
      if UniqueIds(passages) {
        DeleteKeepsUnique(passages, id);
      }
      passages := Delete(passages, id);
      successMessage := Some(Deleted);
      if editing.Some? && editing.value.id == id {
        editing := None;
      }
    }

    /** `addQuestionToPassage`. */
    method AddQuestion()
      modifies this`editing
      ensures editing == if old(editing).Some? then Some(WithNewQuestion(old(editing).value)) else None
    {
      if editing.Some? {
        var p := editing.value;
        var newQuestion := SubQuestion(QuestionId(p.id, |p.questions| + 1), "", DefaultOptions, "A", "");
        editing := Some(p.(questions := p.questions + [newQuestion]));
      }
    }

    /** `removeQuestionFromPassage`; `refused` is the alert shown when only one question is left. */
    method RemoveQuestion(index: int) returns (refused: bool)
      modifies this`editing
      ensures editing == if old(editing).Some? then Some(WithoutQuestion(old(editing).value, index)) else None
      ensures refused <==> old(editing).Some? && |old(editing).value.questions| <= 1
    {
      refused := false;
      if editing.None? {
        return;
      }
      var p := editing.value;
      if |p.questions| <= 1 {
        refused := true;
        return;
      }
      var updated := RemoveAt(p.questions, index);
      editing := Some(p.(questions := updated));
    }

    /** The "add option" button of question qIndex: the next letter's empty label is appended. */
    method AddOption(qIndex: nat)
      requires editing.Some? && qIndex < |editing.value.questions|
      requires 65 + |editing.value.questions[qIndex].options| < 0xD800
      modifies this`editing
      ensures var p := old(editing).value; var q := p.questions[qIndex];
        editing == Some(p.(questions := p.questions[qIndex := q.(options := q.options + [NextOptionLabel(|q.options|)])]))
    {
      var p := editing.value;
      var q := p.questions[qIndex];
      var nextLetter := (65 + |q.options|) as char;
      q := q.(options := q.options + [[nextLetter] + ") "]);
      editing := Some(p.(questions := p.questions[qIndex := q]));
    }

    /** `applyAIResponseToPassage`: read the answer and apply it to the passage being edited. */
    method ApplyResponse(response: string)
      modifies this`editing
      ensures old(editing).None? || response == "" ==> editing == old(editing)
      ensures old(editing).Some? && response != "" ==>
        var st := Parse(Split(response, '\n'));
        editing == Some(Apply(old(editing).value, st.title, st.text, st.questions))
    {
      if editing.None? || response == "" {
        return;
      }
      var title, text, questions := ParseResponse(response);
      editing := Some(Apply(editing.value, title, text, questions));
    }
  }
}
