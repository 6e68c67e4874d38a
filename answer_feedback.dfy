/** The answer-feedback behaviour shared, line for line, by the math and the
    reading question components: a click on an option shows feedback for
    1500 ms, during which further clicks are ignored; when the timer fires the
    component reports `(isCorrect, answer)` to its parent and returns to idle.
    The buttons are styled from the two state fields `selectedAnswer` and
    `showFeedback`.

    The 1500 ms `setTimeout` is an explicit step, `TimerFires`; the callback
    it will run is the field `pending`, holding what it will report. */
module AnswerFeedback {
  import opened Records

  /** The arguments of `onAnswer(isCorrect, answer)`. */
  datatype Report = Report(isCorrect: bool, answer: string)

  /** The four looks of an answer button: `bg-white …` before any answer,
      `bg-success …`, `bg-error …` and `bg-gray-100 …` while feedback shows. */
  datatype ButtonStyle = Neutral | Success | Error | Muted

  /** `getAnswerButtonClass(answer)`, up to the class strings. */
  function ButtonStyleOf(showFeedback: bool, selected: Option<string>, correct: string, option: string): ButtonStyle
  {
    if !showFeedback then Neutral
    else if option == correct then Success
    else if selected == Some(option) && option != correct then Error
    else Muted
  }

  /** Idle: every option is neutral. Feedback: the correct option is green,
      the chosen wrong option red, every other option grey. */
  lemma ButtonStyleCases(showFeedback: bool, selected: Option<string>, correct: string, option: string)
    ensures var s := ButtonStyleOf(showFeedback, selected, correct, option);
      && (s == Neutral <==> !showFeedback)
      && (s == Success <==> showFeedback && option == correct)
      && (s == Error <==> showFeedback && option != correct && selected == Some(option))
      && (s == Muted <==> showFeedback && option != correct && selected != Some(option))
  {
  }

  predicate DistinctOptions(options: seq<string>)
  {
    forall i, j :: 0 <= i < j < |options| ==> options[i] != options[j]
  }

  /** The styles of the row of option buttons, one per option. Before an
      answer every button is neutral. While feedback shows, with distinct
      options that include the correct answer, exactly one button is green,
      and at most one is red: the chosen one, when it is wrong. */
  function StylesOf(showFeedback: bool, selected: Option<string>, correct: string, options: seq<string>): (r: seq<ButtonStyle>)
    ensures |r| == |options|
    ensures forall i :: 0 <= i < |options| ==> r[i] == ButtonStyleOf(showFeedback, selected, correct, options[i])
    ensures !showFeedback ==> forall i :: 0 <= i < |r| ==> r[i] == Neutral
    ensures showFeedback && DistinctOptions(options) && correct in options ==>
      && (exists i :: 0 <= i < |r| && r[i] == Success)
      && (forall i, j :: 0 <= i < |r| && 0 <= j < |r| && r[i] == Success && r[j] == Success ==> i == j)
      && (forall i, j :: 0 <= i < |r| && 0 <= j < |r| && r[i] == Error && r[j] == Error ==> i == j)
      && (forall i :: 0 <= i < |r| && r[i] == Error ==> selected == Some(options[i]) && options[i] != correct)
  {
    var r := seq(|options|, i requires 0 <= i < |options| => ButtonStyleOf(showFeedback, selected, correct, options[i]));
    assert showFeedback && correct in options ==> exists k :: 0 <= k < |options| && options[k] == correct && r[k] == Success;
    r
  }

  /** The class strings the two components share; only the neutral class,
      with its hover colours, differs between them. */
  const SuccessClass: string := "bg-success border-success text-white"
  const ErrorClass: string := "bg-error border-error text-white"
  const MutedClass: string := "bg-gray-100 border-gray-300 text-gray-500"

  function ClassOf(neutral: string, style: ButtonStyle): string
  {
    match style
    case Neutral => neutral
    case Success => SuccessClass
    case Error => ErrorClass
    case Muted => MutedClass
  }

  /** `getAnswerButtonClass(answer)` with the component's neutral class:
      that class before an answer; while feedback shows, each of the other
      three classes exactly under its own condition. */
  function AnswerButtonClass(neutral: string, showFeedback: bool, selected: Option<string>, correct: string, option: string): (c: string)
    ensures !showFeedback ==> c == neutral
    ensures showFeedback ==>
      && (c == SuccessClass <==> option == correct)
      && (c == ErrorClass <==> option != correct && selected == Some(option))
      && (c == MutedClass <==> option != correct && selected != Some(option))
  {
    assert |SuccessClass| == 36 && |ErrorClass| == 32 && |MutedClass| == 41;
    ClassOf(neutral, ButtonStyleOf(showFeedback, selected, correct, option))
  }

  /** The message under the buttons. */
  datatype Feedback = NoFeedback | CorrectFeedback | IncorrectFeedback(correctAnswer: string)

  /** `showFeedback && (selectedAnswer === question.correct_answer_c ? … : …)`. */
  function FeedbackOf(showFeedback: bool, selected: Option<string>, correct: string): Feedback
  {
    if !showFeedback then NoFeedback
    else if selected == Some(correct) then CorrectFeedback
    else IncorrectFeedback(correct)
  }

  /** "Correct!" shows exactly when feedback is on and the selection is the
      correct answer; otherwise feedback names the correct answer. */
  lemma FeedbackCases(showFeedback: bool, selected: Option<string>, correct: string)
    ensures FeedbackOf(showFeedback, selected, correct) == CorrectFeedback <==> showFeedback && selected == Some(correct)
    ensures FeedbackOf(showFeedback, selected, correct) == NoFeedback <==> !showFeedback
    ensures FeedbackOf(showFeedback, selected, correct).IncorrectFeedback? ==>
              FeedbackOf(showFeedback, selected, correct).correctAnswer == correct
  {
  }

  /** One mounted question component: its props and its two state fields. */
  class AnswerCard {
    const question: Question
    var selectedAnswer: Option<string>
    var showFeedback: bool
    /** The scheduled timer callback, with what it captured at click time. */
    var pending: Option<Report>

    /** Feedback shows exactly while a callback is pending; the selection is
        the pending answer then, and nothing otherwise; the pending verdict
        compares the answer with the correct one. */
    ghost predicate Valid()
      reads this
    {
      && (showFeedback <==> pending.Some?)
      && (!showFeedback ==> selectedAnswer == None)
      && (pending.Some? ==>
            && selectedAnswer == Some(pending.value.answer)
            && pending.value.isCorrect == (pending.value.answer == question.correctAnswer))
    }

    /** `useState(null)`, `useState(false)`. */
    constructor (q: Question)
      ensures Valid()
      ensures question == q && selectedAnswer == None && !showFeedback && pending == None
    {
      question := q;
      selectedAnswer := None;
      showFeedback := false;
      pending := None;
    }

    /** `handleAnswerClick(answer)`: ignored while feedback shows; otherwise
        select, show feedback and schedule the report. */
    method HandleAnswerClick(answer: string)
      requires Valid()
      modifies this
      ensures Valid()
      ensures old(showFeedback) ==>
        selectedAnswer == old(selectedAnswer) && showFeedback && pending == old(pending)
      ensures !old(showFeedback) ==>
        && selectedAnswer == Some(answer) && showFeedback
        && pending == Some(Report(answer == question.correctAnswer, answer))
    {
      if showFeedback {
        return;
      }
      selectedAnswer := Some(answer);
      showFeedback := true;
      var isCorrect := answer == question.correctAnswer;
      pending := Some(Report(isCorrect, answer));
    }

    /** The timer fires: the pending callback reports, once, and the card
        returns to idle. With nothing pending nothing happens. */
    method TimerFires() returns (report: Option<Report>)
      requires Valid()
      modifies this
      ensures Valid()
      ensures report == old(pending)
      ensures selectedAnswer == None && !showFeedback && pending == None
    {
      report := pending;
      if pending.Some? {
        selectedAnswer := None;
        showFeedback := false;
        pending := None;
      }
    }

    /** The styles of the question's option buttons in the current state. */
    function ButtonStyles(): seq<ButtonStyle>
      reads this
    {
      StylesOf(showFeedback, selectedAnswer, question.correctAnswer, question.options)
    }

    function CurrentFeedback(): Feedback
      reads this
    {
      FeedbackOf(showFeedback, selectedAnswer, question.correctAnswer)
    }

    /** While feedback shows, "Correct!" appears exactly when the pending
        report will say `isCorrect`. */
    lemma FeedbackAgreesWithReport()
      requires Valid() && showFeedback
      ensures (CurrentFeedback() == CorrectFeedback) == pending.value.isCorrect
    {
    }
  }
}
