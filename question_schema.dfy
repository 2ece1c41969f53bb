/**
 * The question-bank data contract: the option-label parser and the schema
 * rules that `validateQuestion` and `validateTestData` enforce. Input values
 * are typed records whose fields may be absent or of the wrong JSON type; a
 * failed check yields issues, each with the path of the offending value, in
 * the order the schema walks the record.
 */
module QuestionSchema {
  import opened Js

  // ------------------------------------------------------- parseOptionValue

  predicate IsUpper(c: char) { 'A' <= c <= 'Z' }

  predicate IsAsciiLetter(c: char) { 'A' <= c <= 'Z' || 'a' <= c <= 'z' }

  /**
   * `parseOptionValue`: an upper-case letter followed by `)` yields that
   * letter; otherwise a leading ASCII letter of either case (`/^[A-Z]/i`)
   * yields it upper-cased; otherwise the empty string.
   */
  function ParseOptionValue(option: string): string {
    if |option| >= 2 && IsUpper(option[0]) && option[1] == ')' then [option[0]]
    else if |option| >= 1 && IsAsciiLetter(option[0]) then [UpperChar(option[0])]
    else ""
  }

  /** The option label the editor generates for the i-th option: `String.fromCharCode(65 + i) + ") "`. */
  function OptionLabel(i: nat): string
    requires i < 26
  {
    [(65 + i) as char] + ") "
  }

  /**
   * The result is the empty string exactly when the option does not start with
   * an ASCII letter, and otherwise that letter upper-cased.
   */
  lemma ParseOptionValueMeaning(option: string)
    ensures var r := ParseOptionValue(option);
      && (r == "" <==> option == [] || !IsAsciiLetter(option[0]))
      && (r != "" ==> |r| == 1 && IsUpper(r[0]) && r[0] == UpperChar(option[0]))
  {
  }

  /** Parsing a parsed label gives it back. */
  lemma ParseOptionValueIdempotent(option: string)
    ensures ParseOptionValue(ParseOptionValue(option)) == ParseOptionValue(option)
  {
  }

  /** Every generated label, whatever text follows it, parses back to its letter. */
  lemma OptionLabelRoundTrip(i: nat, text: string)
    requires i < 26
    ensures ParseOptionValue(OptionLabel(i) + text) == [(65 + i) as char]
  {
    var s := OptionLabel(i) + text;
    assert s[0] == (65 + i) as char && s[1] == ')';
  }

  /** A lower-case label still parses, upper-cased: `"c) x"` gives `"C"`. */
  lemma LowerCaseLabel()
    ensures ParseOptionValue("c) x") == "C"
  {
  }

  // ----------------------------------------------------------------- issues

  /** One step of a path: an object key or an array index. */
  datatype PathStep = Key(name: string) | Idx(index: nat)

  type Path = seq<PathStep>

  /** Why a value was refused: not of the expected JSON type (or absent), or shorter than a minimum. */
  datatype IssueKind = InvalidType | TooSmall(minimum: nat)

  datatype Issue = Issue(path: Path, kind: IssueKind)

  /** A field that should hold a string. */
  datatype Field = Absent | Str(s: string) | NotString

  /** A field that should hold an array of strings. */
  datatype StringList = ListAbsent | NotAList | Strings(items: seq<Field>)

  /** A field that should hold an array of objects. */
  datatype ObjectList<T> = ObjectsAbsent | NotAnArray | Objects(objects: seq<T>)

  /** `z.string().min(1)`. */
  predicate NonEmpty(f: Field) {
    f.Str? && |f.s| >= 1
  }

  function NonEmptyIssues(f: Field, path: Path): (issues: seq<Issue>)
    ensures issues == [] <==> NonEmpty(f)
  {
    if !f.Str? then [Issue(path, InvalidType)]
    else if |f.s| < 1 then [Issue(path, TooSmall(1))]
    else []
  }

  /** `z.string().optional()`. */
  function OptionalIssues(f: Field, path: Path): (issues: seq<Issue>)
    ensures issues == [] <==> !f.NotString?
  {
    if f.NotString? then [Issue(path, InvalidType)] else []
  }

  /** `z.string()`. */
  function StringIssues(f: Field, path: Path): (issues: seq<Issue>)
    ensures issues == [] <==> f.Str?
  {
    if f.Str? then [] else [Issue(path, InvalidType)]
  }

  /** Issues of the first n elements, each checked at its index. */
  function ElementIssues(items: seq<Field>, n: nat, path: Path, nonEmpty: bool): (issues: seq<Issue>)
    requires n <= |items|
    ensures issues == [] <==> forall k :: 0 <= k < n ==> if nonEmpty then NonEmpty(items[k]) else items[k].Str?
  {
    if n == 0 then []
    else
      var check := if nonEmpty then NonEmptyIssues(items[n - 1], path + [Idx(n - 1)])
                   else StringIssues(items[n - 1], path + [Idx(n - 1)]);
      ElementIssues(items, n - 1, path, nonEmpty) + check
  }

  /** `z.array(element).min(minimum)`: the length issue first, then the elements' issues. */
  function StringListIssues(l: StringList, path: Path, minimum: nat, nonEmpty: bool): seq<Issue> {
    match l
    case Strings(items) =>
      (if |items| < minimum then [Issue(path, TooSmall(minimum))] else [])
      + ElementIssues(items, |items|, path, nonEmpty)
    case _ => [Issue(path, InvalidType)]
  }

  /** The list is present, long enough, and every element passes. */
  predicate StringListOk(l: StringList, minimum: nat, nonEmpty: bool) {
    l.Strings? && |l.items| >= minimum
    && forall k :: 0 <= k < |l.items| ==> if nonEmpty then NonEmpty(l.items[k]) else l.items[k].Str?
  }

  lemma StringListIssuesEmpty(l: StringList, path: Path, minimum: nat, nonEmpty: bool)
    ensures StringListIssues(l, path, minimum, nonEmpty) == [] <==> StringListOk(l, minimum, nonEmpty)
  {
  }

  // ------------------------------------------------------------- questions

  /** A vocabulary or grammar item as stored. */
  datatype QuestionRecord = QuestionRecord(
    id: Field, questionType: Field, difficulty: Field, question: Field,
    options: StringList, answer: Field, explanation: Field)

  /** The rules of `QuestionSchema`. */
  predicate QuestionValid(q: QuestionRecord) {
    && NonEmpty(q.id) && NonEmpty(q.questionType) && NonEmpty(q.difficulty) && NonEmpty(q.question)
    && StringListOk(q.options, 2, true)
    && NonEmpty(q.answer)
    && !q.explanation.NotString?
  }

  /** The issues `QuestionSchema` reports, field by field in schema order. */
  function QuestionIssues(q: QuestionRecord, path: Path): (issues: seq<Issue>)
    ensures issues == [] <==> QuestionValid(q)
  {
    StringListIssuesEmpty(q.options, path + [Key("options")], 2, true);
    NonEmptyIssues(q.id, path + [Key("id")])
    + NonEmptyIssues(q.questionType, path + [Key("question_type")])
    + NonEmptyIssues(q.difficulty, path + [Key("difficulty")])
    + NonEmptyIssues(q.question, path + [Key("question")])
    + StringListIssues(q.options, path + [Key("options")], 2, true)
    + NonEmptyIssues(q.answer, path + [Key("answer")])
    + OptionalIssues(q.explanation, path + [Key("explanation")])
  }

  /** `{ valid, errors? }`: no errors on success, at least one on failure. */
  datatype Validation = Valid | Invalid(errors: seq<Issue>)

  function FromIssues(issues: seq<Issue>): (v: Validation)
    ensures v.Valid? <==> issues == []
    ensures v.Invalid? ==> v.errors == issues && |v.errors| > 0
  {
    if issues == [] then Valid else Invalid(issues)
  }

  /** `validateQuestion`. */
  function ValidateQuestion(q: QuestionRecord): (v: Validation)
    ensures v.Valid? <==> QuestionValid(q)
    ensures v.Invalid? ==> |v.errors| > 0
  {
    FromIssues(QuestionIssues(q, []))
  }

  /** Explanations are optional: dropping one never changes the verdict. */
  lemma ExplanationOptional(q: QuestionRecord)
    requires q.explanation.Str?
    ensures ValidateQuestion(q).Valid? == ValidateQuestion(q.(explanation := Absent)).Valid?
  {
  }

  /** Text fields are not trimmed: a single space is a valid id. */
  lemma BlankIsNotEmpty(q: QuestionRecord)
    requires QuestionValid(q)
    ensures QuestionValid(q.(id := Str(" ")))
  {
  }

  // --------------------------------------------------- passages and scripts

  /** A sub-question of a passage or script; its id key differs between the two. */
  datatype SubRecord = SubRecord(subId: Field, question: Field, options: StringList, answer: Field, explanation: Field)

  predicate SubValid(q: SubRecord) {
    NonEmpty(q.subId) && NonEmpty(q.question) && StringListOk(q.options, 2, true)
    && NonEmpty(q.answer) && !q.explanation.NotString?
  }

  function SubIssues(q: SubRecord, idKey: string, path: Path): (issues: seq<Issue>)
    ensures issues == [] <==> SubValid(q)
  {
    StringListIssuesEmpty(q.options, path + [Key("options")], 2, true);
    NonEmptyIssues(q.subId, path + [Key(idKey)])
    + NonEmptyIssues(q.question, path + [Key("question")])
    + StringListIssues(q.options, path + [Key("options")], 2, true)
    + NonEmptyIssues(q.answer, path + [Key("answer")])
    + OptionalIssues(q.explanation, path + [Key("explanation")])
  }

  /** `z.array(sub).min(1)`. */
  function SubsIssues(l: ObjectList<SubRecord>, idKey: string, path: Path): (issues: seq<Issue>)
    ensures issues == [] <==> l.Objects? && |l.objects| >= 1 && forall k :: 0 <= k < |l.objects| ==> SubValid(l.objects[k])
  {
    match l
    case Objects(subs) =>
      var check := (q, p) => SubIssues(q, idKey, p);
      ObjectIssuesEmpty(subs, |subs|, check, SubValid, path);
      (if |subs| < 1 then [Issue(path, TooSmall(1))] else []) + ObjectIssues(subs, |subs|, check, path)
    case _ => [Issue(path, InvalidType)]
  }

  datatype Passage = Passage(id: Field, title: Field, text: Field, questions: ObjectList<SubRecord>)

  /** The rules of `ReadingPassageSchema`. */
  predicate PassageValid(p: Passage) {
    NonEmpty(p.id) && NonEmpty(p.title) && NonEmpty(p.text)
    && p.questions.Objects? && |p.questions.objects| >= 1
    && forall k :: 0 <= k < |p.questions.objects| ==> SubValid(p.questions.objects[k])
  }

  function PassageIssues(p: Passage, path: Path): (issues: seq<Issue>)
    ensures issues == [] <==> PassageValid(p)
  {
    NonEmptyIssues(p.id, path + [Key("id")])
    + NonEmptyIssues(p.title, path + [Key("passage_title")])
    + NonEmptyIssues(p.text, path + [Key("passage_text")])
    + SubsIssues(p.questions, "question_id_in_passage", path + [Key("questions")])
  }

  datatype Script = Script(id: Field, title: Field, script: Field, audioSrc: Field, questions: ObjectList<SubRecord>)

  /** The rules of `ListeningScriptSchema`: a passage's rules plus a non-empty audio source. */
  predicate ScriptValid(s: Script) {
    NonEmpty(s.id) && NonEmpty(s.title) && NonEmpty(s.script) && NonEmpty(s.audioSrc)
    && s.questions.Objects? && |s.questions.objects| >= 1
    && forall k :: 0 <= k < |s.questions.objects| ==> SubValid(s.questions.objects[k])
  }

  function ScriptIssues(s: Script, path: Path): (issues: seq<Issue>)
    ensures issues == [] <==> ScriptValid(s)
  {
    NonEmptyIssues(s.id, path + [Key("id")])
    + NonEmptyIssues(s.title, path + [Key("script_title")])
    + NonEmptyIssues(s.script, path + [Key("script")])
    + NonEmptyIssues(s.audioSrc, path + [Key("audioSrc")])
    + SubsIssues(s.questions, "question_id_in_script", path + [Key("questions")])
  }

  // -------------------------------------------------------------- test data

  /** A field that should hold a number. */
  datatype NumberField = NumberAbsent | Number(n: int) | NotANumber

  datatype Settings = Settings(totalTimeMinutes: NumberField, sections: StringList)

  datatype TestData = TestData(
    testSettings: Option<Settings>,
    vocabulary: ObjectList<QuestionRecord>,
    grammar: ObjectList<QuestionRecord>,
    readingComprehension: ObjectList<Passage>,
    listeningComprehension: ObjectList<Script>)

  /** `testSettings`: at least one minute and at least one section, every section a string. */
  predicate SettingsValid(s: Option<Settings>) {
    s.Some? && s.value.totalTimeMinutes.Number? && s.value.totalTimeMinutes.n >= 1
    && StringListOk(s.value.sections, 1, false)
  }

  function SettingsIssues(s: Option<Settings>, path: Path): (issues: seq<Issue>)
    ensures issues == [] <==> SettingsValid(s)
  {
    match s
    case None => [Issue(path, InvalidType)]
    case Some(settings) =>
      StringListIssuesEmpty(settings.sections, path + [Key("sections")], 1, false);
      var minutes := path + [Key("totalTimeMinutes")];
      (match settings.totalTimeMinutes
       case Number(n) => if n < 1 then [Issue(minutes, TooSmall(1))] else []
       case _ => [Issue(minutes, InvalidType)])
      + StringListIssues(settings.sections, path + [Key("sections")], 1, false)
  }

  /** Issues of the first n objects of a list, each checked by `check` at its index. */
  function ObjectIssues<T>(objects: seq<T>, n: nat, check: (T, Path) -> seq<Issue>, path: Path): seq<Issue>
    requires n <= |objects|
  {
    if n == 0 then []
    else ObjectIssues(objects, n - 1, check, path) + check(objects[n - 1], path + [Idx(n - 1)])
  }

  lemma {:induction false} ObjectIssuesEmpty<T>(objects: seq<T>, n: nat, check: (T, Path) -> seq<Issue>,
                                                ok: T -> bool, path: Path)
    requires n <= |objects|
    requires forall x, p :: check(x, p) == [] <==> ok(x)
    ensures ObjectIssues(objects, n, check, path) == [] <==> forall k :: 0 <= k < n ==> ok(objects[k])
  {
    if n > 0 {
      ObjectIssuesEmpty(objects, n - 1, check, ok, path);
    }
  }

  /** `z.array(element)` without a minimum. */
  function ObjectListIssues<T>(l: ObjectList<T>, check: (T, Path) -> seq<Issue>, path: Path): seq<Issue> {
    match l
    case Objects(objects) => ObjectIssues(objects, |objects|, check, path)
    case _ => [Issue(path, InvalidType)]
  }

  predicate ListValid<T>(l: ObjectList<T>, ok: T -> bool) {
    l.Objects? && forall k :: 0 <= k < |l.objects| ==> ok(l.objects[k])
  }

  lemma ObjectListIssuesEmpty<T>(l: ObjectList<T>, check: (T, Path) -> seq<Issue>, ok: T -> bool, path: Path)
    requires forall x, p :: check(x, p) == [] <==> ok(x)
    ensures ObjectListIssues(l, check, path) == [] <==> ListValid(l, ok)
  {
    if l.Objects? {
      ObjectIssuesEmpty(l.objects, |l.objects|, check, ok, path);
    }
  }

  /** The rules of `TestDataSchema`. */
  predicate TestDataValid(d: TestData) {
    && SettingsValid(d.testSettings)
    && ListValid(d.vocabulary, QuestionValid)
    && ListValid(d.grammar, QuestionValid)
    && ListValid(d.readingComprehension, PassageValid)
    && ListValid(d.listeningComprehension, ScriptValid)
  }

  function TestDataIssues(d: TestData): seq<Issue> {
    SettingsIssues(d.testSettings, [Key("testSettings")])
    + ObjectListIssues(d.vocabulary, QuestionIssues, [Key("vocabulary")])
    + ObjectListIssues(d.grammar, QuestionIssues, [Key("grammar")])
    + ObjectListIssues(d.readingComprehension, PassageIssues, [Key("reading_comprehension")])
    + ObjectListIssues(d.listeningComprehension, ScriptIssues, [Key("listening_comprehension")])
  }

  /** `validateTestData`. */
  function ValidateTestData(d: TestData): (v: Validation)
    ensures v.Valid? <==> TestDataValid(d)
    ensures v.Invalid? ==> |v.errors| > 0
  {
    ObjectListIssuesEmpty(d.vocabulary, QuestionIssues, QuestionValid, [Key("vocabulary")]);
    ObjectListIssuesEmpty(d.grammar, QuestionIssues, QuestionValid, [Key("grammar")]);
    ObjectListIssuesEmpty(d.readingComprehension, PassageIssues, PassageValid, [Key("reading_comprehension")]);
    ObjectListIssuesEmpty(d.listeningComprehension, ScriptIssues, ScriptValid, [Key("listening_comprehension")]);
    FromIssues(TestDataIssues(d))
  }
}
