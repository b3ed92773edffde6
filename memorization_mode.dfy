/**
  The memorisation view: slide-by-slide navigation, the flashcard's back side
  (the first points and a shortened AI summary), and the quiz built from the
  AI's text, or from the slide itself when that text holds no usable question.
 */
module MemorizationMode {
  import opened Wrappers
  import opened Text
  import opened JsSplit
  import opened SlideStore

  // ------------------------------------------------------ slide navigation

  /** The slide `handlePrev` selects: one back, unless already at the first slide (or before it). */
  function PrevIndex(i: int): (j: int)
    ensures i - 1 <= j <= i
    ensures j == i <==> i <= 0
    ensures i >= 0 ==> j >= 0
  {
    if i > 0 then i - 1 else i
  }

  /** The slide `handleNext` selects among `count` slides: one on, unless already at the last one. */
  function NextIndex(i: int, count: int): (j: int)
    ensures i <= j <= i + 1
    ensures j == i + 1 <==> i < count - 1
    ensures j < count || j == i
  {
    if i < count - 1 then i + 1 else i
  }

  /** Neither button ever moves the selection out of the deck. */
  lemma NavigationStaysInDeck(i: int, count: int)
    requires 0 <= i < count
    ensures 0 <= PrevIndex(i) < count && 0 <= NextIndex(i, count) < count
  {
  }

  /** `handlePrev`. */
  method HandlePrev(store: Store)
    modifies store`currentSlideIndex
    ensures store.currentSlideIndex == PrevIndex(old(store.currentSlideIndex))
  {
    if store.currentSlideIndex > 0 {
      store.SetCurrentSlideIndex(store.currentSlideIndex - 1);
    }
  }

  /** `handleNext`. */
  method HandleNext(store: Store)
    modifies store`currentSlideIndex
    ensures store.currentSlideIndex == NextIndex(old(store.currentSlideIndex), |store.slides|)
  {
    if store.currentSlideIndex < |store.slides| - 1 {
      store.SetCurrentSlideIndex(store.currentSlideIndex + 1);
    }
  }

  // ------------------------------------------------------------- flashcard

  /** How many characters of the AI summary the flashcard shows before cutting it off. */
  const SummaryLimit: nat := 300

  /**
    The AI summary block of the flashcard: absent when there is no AI text (null
    or empty), the whole text when it is short enough, otherwise its first 300
    characters followed by "...".
   */
  function ShownSummary(aiContent: Option<string>): (shown: Option<string>)
    ensures shown.None? <==> aiContent.None? || aiContent.value == ""
    ensures shown.Some? && |aiContent.value| <= SummaryLimit ==> shown.value == aiContent.value
    ensures shown.Some? && |aiContent.value| > SummaryLimit ==>
      |shown.value| == SummaryLimit + 3 && shown.value[..SummaryLimit] == aiContent.value[..SummaryLimit]
      && shown.value[SummaryLimit..] == "..."
  {
    match aiContent
    case None => None
    case Some(text) =>
      if text == "" then None
      else if |text| > SummaryLimit then Some(text[..SummaryLimit] + "...")
      else Some(text)
  }

  /** The "Core Concepts" list: `slide.points.slice(0, 4)`. */
  function ShownPoints(points: seq<string>): (shown: seq<string>)
    ensures |shown| <= 4 && shown <= points
    ensures |points| >= 4 ==> |shown| == 4
    ensures |points| < 4 ==> shown == points
  {
    if |points| > 4 then points[..4] else points
  }

  // ---------------------------------------------------------- quiz parsing

  /** A quiz question: its text, its options, and the text of the correct option. */
  datatype Question = Question(q: string, options: seq<string>, correct: string)

  /** What every question parsed from AI text looks like. */
  predicate ParsedShape(question: Question) {
    && question.q != "" && Trimmed(question.q, JavaScript)
    && |question.options| == 3
    && (forall i :: 0 <= i < 3 ==> question.options[i] != "" && Trimmed(question.options[i], JavaScript))
    && question.correct in question.options
  }

  /** `parts[1] || ""`. */
  function Second(parts: seq<string>): string {
    if |parts| > 1 then parts[1] else ""
  }

  /** JavaScript `s.split('\n')[0]`: everything before the first line break, or all of `s` when it has none. */
  function FirstLine(s: string): (line: string)
    ensures line <= s && '\n' !in line
    ensures line == s || s[|line|] == '\n'
  {
    var line := SplitStr(s, "\n")[0];
    ContainsChar(line, '\n');
    FirstPieceEnds(s, "\n");
    line
  }

  /** The first piece of a split is the whole text, or the separator follows it. */
  lemma FirstPieceEnds(s: string, sep: string)
    requires |sep| > 0
    ensures var first := SplitStr(s, sep)[0];
      first == s || (|first| + |sep| <= |s| && s[|first|..|first| + |sep|] == sep)
  {
    var parts := SplitStr(s, sep);
    JoinSplit(s, sep);
    if |parts| > 1 {
      assert s == parts[0] + sep + JoinStr(parts[1..], sep);
      assert s[|parts[0]|..|parts[0]| + |sep|] == sep;
    }
  }

  /**
    The "Correct Answer:" line names option `letter` (lower-case) when it holds
    "b)" or "b." in any case, or the option's own text.
   */
  predicate Names(correctRaw: string, letter: char, option: string) {
    var cr := Lower(correctRaw);
    Contains(cr, [letter, ')']) || Contains(cr, [letter, '.']) || Contains(correctRaw, option)
  }

  /** The correct option: A unless B is named, C when C is named (C overrides B). */
  function CorrectOption(correctRaw: string, a: string, b: string, c: string): (r: string)
    ensures r in [a, b, c]
  {
    if Names(correctRaw, 'c', c) then c
    else if Names(correctRaw, 'b', b) then b
    else a
  }

  /**
    The letter tests look anywhere in the answer line: an answer that repeats
    option A word for word, but holds "b." somewhere, selects option B.
   */
  lemma LetterAnywhereWins()
    ensures CorrectOption("Use a DB.", "Use a DB.", "x", "y") == "x"
  {
    SampleNamesB();
    SampleNotNamesC();
  }

  /** The sample answer line, lower-cased. */
  lemma SampleLower()
    ensures Lower("Use a DB.") == "use a db."
  {
    var cr := Lower("Use a DB.");
    forall i | 0 <= i < 9
      ensures cr[i] == "use a db."[i]
    {
    }
  }

  /** The sample answer line names option B by its letter. */
  lemma SampleNamesB()
    ensures Names("Use a DB.", 'b', "x")
  {
    SampleLower();
    var cr := "use a db.";
    assert cr[7..9] == "b.";
    assert OccursAt(cr, "b.", 7);
    ContainsAt(cr, "b.");
  }

  /** The sample answer line does not name option C. */
  lemma SampleNotNamesC()
    ensures !Names("Use a DB.", 'c', "y")
  {
    SampleLower();
    NotNamed("Use a DB.", 'c', "y");
  }

  /** A letter absent from the answer line, and an option whose first character is absent too, are not named. */
  lemma NotNamed(correctRaw: string, letter: char, option: string)
    requires letter !in Lower(correctRaw)
    requires option != [] && option[0] !in correctRaw
    ensures !Names(correctRaw, letter, option)
  {
    MissingFirstChar(Lower(correctRaw), [letter, ')']);
    MissingFirstChar(Lower(correctRaw), [letter, '.']);
    MissingFirstChar(correctRaw, option);
  }

  /** The pieces of one question block, in the order the view cuts them out. */
  datatype BlockParts = BlockParts(qText: string, optionA: string, optionB: string, optionC: string, correctRaw: string)

  /**
    A block cut at the A marker, the B marker, the C marker and "Correct
    Answer:" in turn, each split going on with `parts[1] || ""`; the answer is
    the first line of what follows "Correct Answer:", trimmed.
   */
  function CutBlock(block: string): (parts: BlockParts)
    ensures '\n' !in parts.correctRaw
    ensures Trimmed(parts.qText, JavaScript) && Trimmed(parts.optionA, JavaScript)
    ensures Trimmed(parts.optionB, JavaScript) && Trimmed(parts.optionC, JavaScript)
  {
    var aParts := Split(block, OptionMarker('A'));
    var bParts := Split(Second(aParts), OptionMarker('B'));
    var cParts := Split(Second(bParts), OptionMarker('C'));
    var kParts := Split(Second(cParts), CorrectAnswerMarker);
    BlockParts(JsTrim(aParts[0]), JsTrim(bParts[0]), JsTrim(cParts[0]), JsTrim(kParts[0]),
      FirstLine(JsTrim(Second(kParts))))
  }

  /**
    The question made of a block's pieces: a question when the text and all
    three options are non-empty, nothing otherwise.
   */
  function QuestionOf(p: BlockParts): (r: Option<Question>)
    requires Trimmed(p.qText, JavaScript) && Trimmed(p.optionA, JavaScript)
    requires Trimmed(p.optionB, JavaScript) && Trimmed(p.optionC, JavaScript)
    ensures r.Some? <==> p.qText != "" && p.optionA != "" && p.optionB != "" && p.optionC != ""
    ensures r.Some? ==> ParsedShape(r.value)
  {
    if p.qText != "" && p.optionA != "" && p.optionB != "" && p.optionC != "" then
      Some(Question(p.qText, [p.optionA, p.optionB, p.optionC], CorrectOption(p.correctRaw, p.optionA, p.optionB, p.optionC)))
    else None
  }

  /** One block after a "Question:" header, cut into its pieces. */
  function ParseBlock(block: string): (r: Option<Question>)
    ensures r.Some? ==> ParsedShape(r.value)
  {
    QuestionOf(CutBlock(block))
  }

  /**
    Which option the question's answer is: C whenever the answer line names C,
    otherwise B whenever it names B, otherwise A.
   */
  lemma CorrectPrecedence(p: BlockParts)
    requires Trimmed(p.qText, JavaScript) && Trimmed(p.optionA, JavaScript)
    requires Trimmed(p.optionB, JavaScript) && Trimmed(p.optionC, JavaScript)
    requires QuestionOf(p).Some?
    ensures var question := QuestionOf(p).value;
      && (Names(p.correctRaw, 'c', p.optionC) ==> question.correct == question.options[2])
      && (!Names(p.correctRaw, 'c', p.optionC) && Names(p.correctRaw, 'b', p.optionB) ==> question.correct == question.options[1])
      && (!Names(p.correctRaw, 'c', p.optionC) && !Names(p.correctRaw, 'b', p.optionB) ==> question.correct == question.options[0])
  {
  }

  /** `aiContent.split(header).slice(1)`: the text after each header; what precedes the first one is dropped. */
  function QuestionBlocks(aiContent: string): seq<string> {
    Split(aiContent, QuestionHeader)[1..]
  }

  /** Text without any "Question:" header yields no blocks. */
  lemma NoHeaderNoBlocks(aiContent: string)
    requires NoMatchIn(QuestionHeader, aiContent, 0, |aiContent|)
    ensures QuestionBlocks(aiContent) == []
  {
    SplitNoMatch(aiContent, QuestionHeader);
  }

  /** A present value as a list of one, an absent one as the empty list. */
  function Yield<U>(parsed: Option<U>): (ys: seq<U>)
    ensures parsed.Some? ==> ys == [parsed.value]
    ensures parsed.None? <==> ys == []
  {
    if parsed.Some? then [parsed.value] else []
  }

  /** The values `f` gives for the elements of `xs` that it gives one for, in order. */
  function Collect<T, U>(xs: seq<T>, f: T -> Option<U>): (ys: seq<U>)
    ensures |ys| <= |xs|
    decreases |xs|
  {
    if xs == [] then [] else Collect(xs[..|xs| - 1], f) + Yield(f(xs[|xs| - 1]))
  }

  /** Every collected value satisfies `p` when every value `f` gives does. */
  lemma {:induction false} CollectAll<T, U>(xs: seq<T>, f: T -> Option<U>, p: U -> bool)
    requires forall x :: x in xs && f(x).Some? ==> p(f(x).value)
    ensures forall i :: 0 <= i < |Collect(xs, f)| ==> p(Collect(xs, f)[i])
    decreases |xs|
  {
    if xs != [] {
      var init, last := xs[..|xs| - 1], xs[|xs| - 1];
      assert forall x :: x in init ==> x in xs;
      CollectAll(init, f, p);
      assert last in xs;
    }
  }

  /** Collecting over one more element appends what that element yields. */
  lemma CollectStep<T, U>(xs: seq<T>, f: T -> Option<U>, i: nat)
    requires i < |xs|
    ensures Collect(xs[..i + 1], f) == Collect(xs[..i], f) + Yield(f(xs[i]))
  {
    assert xs[..i + 1][..i] == xs[..i];
  }

  /** The questions of the blocks that parse, in block order. */
  function ParseBlocks(blocks: seq<string>): (questions: seq<Question>)
    ensures |questions| <= |blocks|
    ensures forall i :: 0 <= i < |questions| ==> ParsedShape(questions[i])
  {
    CollectAll(blocks, ParseBlock, ParsedShape);
    Collect(blocks, ParseBlock)
  }

  /** `aiContent.split(header).slice(1)` followed by the loop over the blocks. */
  method ParseAiQuestions(aiContent: string) returns (questions: seq<Question>)
    ensures questions == ParseBlocks(QuestionBlocks(aiContent))
    ensures forall i :: 0 <= i < |questions| ==> ParsedShape(questions[i])
  {
    questions := CollectEach(QuestionBlocks(aiContent), ParseBlock);
  }

  /** The `for` loop over the blocks, pushing each value that `f` gives. */
  method CollectEach<T, U>(xs: seq<T>, f: T -> Option<U>) returns (ys: seq<U>)
    ensures ys == Collect(xs, f)
  {
    ys := [];
    for i := 0 to |xs|
      invariant ys == Collect(xs[..i], f)
    {
      var parsed := f(xs[i]);
      CollectStep(xs, f, i);
      if parsed.Some? {
        ys := ys + [parsed.value];
      }
    }
    assert xs[..|xs|] == xs;
  }

  // --------------------------------------------------------- fallback quiz

  /** JavaScript `x || fallback` for a string that may be missing (index `i` past the end, or negative). */
  function PointOr(points: seq<string>, i: int, fallback: string): string {
    if 0 <= i < |points| && points[i] != "" then points[i] else fallback
  }

  /** The first fallback question's options, before shuffling. */
  function TopicOptions(slide: Slide): seq<string> {
    [PointOr(slide.points, 0, "Concept A"), "Random unrelated fact", "Another wrong answer", "Something else"]
  }

  /** The second fallback question's options, before shuffling. */
  function StatementOptions(slide: Slide): seq<string> {
    [
      "It is purely fictional",
      PointOr(slide.points, 1, "It is a key concept"),
      PointOr(slide.points, if 2 < |slide.points| - 1 then 2 else |slide.points| - 1, "It involves specific steps"),
      "None of the above"
    ]
  }

  /** "What is the main topic …?", its options in the order the shuffle gave them. */
  function TopicQuestion(slide: Slide, options: seq<string>): (question: Question)
    requires multiset(options) == multiset(TopicOptions(slide))
    ensures question.options == options && |options| == 4
    ensures question.correct == PointOr(slide.points, 0, "Concept A") && question.correct in options
  {
    var correct := PointOr(slide.points, 0, "Concept A");
    assert correct in multiset(TopicOptions(slide));
    assert |options| == |multiset(TopicOptions(slide))|;
    Question("What is the main topic of \"" + slide.title + "\"?", options, correct)
  }

  /** "Which statement is accurate …?", its options in the order the shuffle gave them. */
  function StatementQuestion(slide: Slide, options: seq<string>): (question: Question)
    requires multiset(options) == multiset(StatementOptions(slide))
    ensures question.options == options && |options| == 4
    ensures question.correct == PointOr(slide.points, 1, "It is a key concept") && question.correct in options
  {
    var correct := PointOr(slide.points, 1, "It is a key concept");
    assert correct in multiset(StatementOptions(slide));
    assert |options| == |multiset(StatementOptions(slide))|;
    Question("Which statement is accurate regarding this slide?", options, correct)
  }

  /** The true/false question about the slide's category ("general knowledge" when it has none). */
  function CategoryQuestion(slide: Slide): (question: Question)
    ensures question.options == ["True", "False"] && question.correct == "True"
  {
    Question(
      "True or False: This topic relates to " + (if slide.category != "" then slide.category else "general knowledge") + "?",
      ["True", "False"], "True")
  }

  /**
    The three questions made from the slide itself. The view shuffles the
    options of the first two at random; `topicOptions` and `statementOptions`
    are the orders the shuffle produced.
   */
  function FallbackQuestions(slide: Slide, topicOptions: seq<string>, statementOptions: seq<string>): (qs: seq<Question>)
    requires multiset(topicOptions) == multiset(TopicOptions(slide))
    requires multiset(statementOptions) == multiset(StatementOptions(slide))
    ensures |qs| == 3
    ensures qs[0].options == topicOptions && qs[0].correct == PointOr(slide.points, 0, "Concept A") && qs[0].correct in qs[0].options
    ensures qs[1].options == statementOptions && qs[1].correct == PointOr(slide.points, 1, "It is a key concept") && qs[1].correct in qs[1].options
    ensures qs[2].options == ["True", "False"] && qs[2].correct == "True" && qs[2].correct in qs[2].options
  {
    [TopicQuestion(slide, topicOptions), StatementQuestion(slide, statementOptions), CategoryQuestion(slide)]
  }

  /** The questions parsed from the AI text; none when there is no AI text (null or empty). */
  function AiQuestions(aiContent: Option<string>): (qs: seq<Question>)
    ensures forall i :: 0 <= i < |qs| ==> ParsedShape(qs[i])
  {
    if aiContent.Some? && aiContent.value != "" then ParseBlocks(QuestionBlocks(aiContent.value)) else []
  }

  /**
    The quiz's `questions`: the questions parsed from the AI text when there are
    any; otherwise nothing for a slide without points, and the three fallback
    questions for any other slide.
   */
  function QuizQuestions(slide: Slide, aiContent: Option<string>, topicOptions: seq<string>, statementOptions: seq<string>): (qs: seq<Question>)
    requires multiset(topicOptions) == multiset(TopicOptions(slide))
    requires multiset(statementOptions) == multiset(StatementOptions(slide))
    ensures AiQuestions(aiContent) != [] ==> qs == AiQuestions(aiContent)
    ensures AiQuestions(aiContent) == [] && |slide.points| == 0 ==> qs == []
    ensures AiQuestions(aiContent) == [] && |slide.points| > 0 ==> qs == FallbackQuestions(slide, topicOptions, statementOptions)
  {
    var parsed := AiQuestions(aiContent);
    if |parsed| > 0 then parsed
    else if |slide.points| == 0 then []
    else FallbackQuestions(slide, topicOptions, statementOptions)
  }

  /** Every question of the quiz, parsed or made from the slide, has its answer among its options. */
  lemma QuizAnswerable(slide: Slide, aiContent: Option<string>, topicOptions: seq<string>, statementOptions: seq<string>)
    requires multiset(topicOptions) == multiset(TopicOptions(slide))
    requires multiset(statementOptions) == multiset(StatementOptions(slide))
    ensures var qs := QuizQuestions(slide, aiContent, topicOptions, statementOptions);
      forall i :: 0 <= i < |qs| ==> qs[i].correct in qs[i].options
  {
    var qs := QuizQuestions(slide, aiContent, topicOptions, statementOptions);
    var parsed := AiQuestions(aiContent);
    if parsed != [] {
      forall i | 0 <= i < |qs|
        ensures qs[i].correct in qs[i].options
      {
        assert ParsedShape(parsed[i]);
      }
    } else if |slide.points| > 0 {
      ThreeAnswerable(FallbackQuestions(slide, topicOptions, statementOptions));
    }
  }

  /** Three questions whose answers are among their options, as one fact. */
  lemma ThreeAnswerable(qs: seq<Question>)
    requires |qs| == 3 && qs[0].correct in qs[0].options && qs[1].correct in qs[1].options
    requires qs[2].correct in qs[2].options
    ensures forall i :: 0 <= i < |qs| ==> qs[i].correct in qs[i].options
  {
  }

  // ------------------------------------------------------------ quiz state

  /** `history[k]` when set, as the view reads it back: `undefined` and `null` both give no selection. */
  function Lookup(history: map<int, nat>, k: int): (r: Option<nat>)
    ensures r.Some? <==> k in history
  {
    if k in history then Some(history[k]) else None
  }

  /** Question `k` has a recorded answer, and it is that question's correct option. */
  ghost predicate AnsweredRight(questions: seq<Question>, history: map<int, nat>, k: int)
  {
    0 <= k < |questions| && k in history && history[k] < |questions[k].options|
    && questions[k].options[history[k]] == questions[k].correct
  }

  /** How many of the first `n` questions were answered correctly. */
  ghost function CorrectCount(questions: seq<Question>, history: map<int, nat>, n: nat): (c: nat)
    ensures c <= n
  {
    if n == 0 then 0
    else CorrectCount(questions, history, n - 1) + (if AnsweredRight(questions, history, n - 1) then 1 else 0)
  }

  /** Answers are kept only for existing questions, and each names one of its question's options. */
  ghost predicate Recorded(questions: seq<Question>, history: map<int, nat>)
  {
    forall k :: k in history ==> 0 <= k < |questions| && history[k] < |questions[k].options|
  }

  /** With no answers recorded, no question counts as answered correctly. */
  lemma {:induction false} NothingAnswered(questions: seq<Question>, n: nat)
    ensures CorrectCount(questions, map[], n) == 0
  {
    if n > 0 {
      NothingAnswered(questions, n - 1);
    }
  }

  /**
    Recording a first answer to question `q` keeps the answers well-formed and
    adds one to the count of correct answers exactly when the chosen option is
    the correct one.
   */
  lemma {:induction false} RecordAnswer(questions: seq<Question>, history: map<int, nat>, q: int, idx: nat, n: nat)
    requires Recorded(questions, history)
    requires 0 <= q < |questions| && q !in history && idx < |questions[q].options|
    ensures Recorded(questions, history[q := idx])
    ensures CorrectCount(questions, history[q := idx], n)
      == CorrectCount(questions, history, n)
        + (if q < n && questions[q].options[idx] == questions[q].correct then 1 else 0)
  {
    if n > 0 {
      RecordAnswer(questions, history, q, idx, n - 1);
    }
  }

  /** The state of the quiz sub-view over a fixed list of questions. */
  class QuizView {
    const questions: seq<Question>
    var currentQ: int
    var score: int
    var showResult: bool
    var selected: Option<nat>
    var history: map<int, nat>

    /**
      The question shown is an existing one (or 0 for an empty quiz); answers
      are recorded only for existing questions and name one of their options;
      the score is the number of questions answered correctly; and the
      selection shown is the recorded answer of the current question, if any.
     */
    ghost predicate Valid()
      reads this
    {
      && 0 <= currentQ && (currentQ < |questions| || currentQ == 0)
      && Recorded(questions, history)
      && score == CorrectCount(questions, history, |questions|)
      && selected == Lookup(history, currentQ)
    }

    /** The initial state: first question, no score, no result, nothing selected or recorded. */
    constructor (questions: seq<Question>)
      ensures Valid() && this.questions == questions
      ensures currentQ == 0 && score == 0 && !showResult && selected == None && history == map[]
    {
      this.questions := questions;
      currentQ := 0;
      score := 0;
      showResult := false;
      selected := None;
      history := map[];
      NothingAnswered(questions, |questions|);
    }

    /**
      `handleAnswer`: ignored once an option is selected; otherwise the choice
      is selected and recorded, and a correct choice scores a point. (The check
      that no answer was recorded before always passes here: an unselected
      question has none.) Options are only shown when the quiz has questions.
     */
    method HandleAnswer(option: string, correct: string, idx: nat)
      requires Valid() && |questions| > 0
      requires idx < |questions[currentQ].options|
      requires option == questions[currentQ].options[idx] && correct == questions[currentQ].correct
      modifies this
      ensures Valid() && score <= |questions|
      ensures old(selected).Some? ==>
        currentQ == old(currentQ) && score == old(score) && showResult == old(showResult)
        && selected == old(selected) && history == old(history)
      ensures old(selected).None? ==>
        && currentQ == old(currentQ) && showResult == old(showResult)
        && selected == Some(idx) && history == old(history)[currentQ := idx]
        && score == old(score) + (if option == correct then 1 else 0)
    {
      if selected.Some? {
        return;
      }
      var firstAttempt := currentQ !in history;
      RecordAnswer(questions, history, currentQ, idx, |questions|);
      selected := Some(idx);
      history := history[currentQ := idx];
      if option == correct && firstAttempt {
        score := score + 1;
      }
    }

    /** `nextQuestion`: on to the next question with its recorded answer restored, or the result at the last one. */
    method NextQuestion()
      requires Valid()
      modifies this
      ensures Valid() && score == old(score) && history == old(history)
      ensures old(currentQ) < |questions| - 1 ==>
        currentQ == old(currentQ) + 1 && selected == Lookup(history, currentQ) && showResult == old(showResult)
      ensures old(currentQ) >= |questions| - 1 ==>
        currentQ == old(currentQ) && selected == old(selected) && showResult
    {
      if currentQ < |questions| - 1 {
        selected := Lookup(history, currentQ + 1);
        currentQ := currentQ + 1;
      } else {
        showResult := true;
      }
    }

    /** `prevQuestion`: back one question with its recorded answer restored; nothing at the first one. */
    method PrevQuestion()
      requires Valid()
      modifies this
      ensures Valid() && score == old(score) && history == old(history) && showResult == old(showResult)
      ensures old(currentQ) > 0 ==> currentQ == old(currentQ) - 1 && selected == Lookup(history, currentQ)
      ensures old(currentQ) == 0 ==> currentQ == 0 && selected == old(selected)
    {
      if currentQ > 0 {
        selected := Lookup(history, currentQ - 1);
        currentQ := currentQ - 1;
      }
    }

    /** The "Retry Quiz" button: every field back to its initial value. */
    method Retry()
      requires Valid()
      modifies this
      ensures Valid()
      ensures currentQ == 0 && score == 0 && !showResult && selected == None && history == map[]
    {
      showResult := false;
      currentQ := 0;
      score := 0;
      selected := None;
      history := map[];
      NothingAnswered(questions, |questions|);
    }
  }
}
