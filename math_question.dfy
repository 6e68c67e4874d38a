/** The math question component: the shared answer-feedback behaviour with
    its own neutral button class (`primary` hover colours) and feedback texts. */
module MathQuestion {
  import opened Records
  import opened AnswerFeedback

  const NeutralClass: string := "bg-white border-2 border-gray-200 text-gray-800 hover:border-primary hover:bg-primary/5"

  /** `getAnswerButtonClass(answer)`: exactly one of the four classes, chosen
      by whether feedback shows, whether the option is correct and whether it
      is the selected one. */
  function GetAnswerButtonClass(showFeedback: bool, selected: Option<string>, correct: string, option: string): (c: string)
    ensures c == NeutralClass <==> !showFeedback
    ensures c == SuccessClass <==> showFeedback && option == correct
    ensures c == ErrorClass <==> showFeedback && option != correct && selected == Some(option)
    ensures c == MutedClass <==> showFeedback && option != correct && selected != Some(option)
  {
    assert |SuccessClass| == 36 && |ErrorClass| == 32 && |MutedClass| == 41 && |NeutralClass| > 41;
    AnswerButtonClass(NeutralClass, showFeedback, selected, correct, option)
  }

  /** The lines of the feedback panel. */
  function FeedbackLines(f: Feedback): (lines: seq<string>)
    ensures f == NoFeedback <==> lines == []
  {
    match f
    case NoFeedback => []
    case CorrectFeedback => ["Correct!", "Excellent work! You're awesome at math!"]
    case IncorrectFeedback(c) => ["Not quite right", "The correct answer is " + c]
  }

  /** The panel says "Correct!" exactly when feedback shows and the selected
      answer is the correct one; otherwise, while feedback shows, its second
      line ends by naming the correct answer. */
  lemma CorrectShownIffSelectedIsCorrect(showFeedback: bool, selected: Option<string>, correct: string)
    ensures var lines := FeedbackLines(FeedbackOf(showFeedback, selected, correct));
      (lines != [] && lines[0] == "Correct!") <==> showFeedback && selected == Some(correct)
    ensures var lines := FeedbackLines(FeedbackOf(showFeedback, selected, correct));
      showFeedback && selected != Some(correct) ==> |lines| == 2 && |lines[1]| > |correct| && lines[1][|lines[1]| - |correct|..] == correct
  {
    assert "Not quite right"[0] != "Correct!"[0];
  }

  /** One question answered: the first click is taken and a second click
      during feedback is ignored; the panel shows the verdict on the first
      answer, the correct option's button is green and the first answer's
      button red when it is wrong; the timer reports that answer once and hides the panel, and a
      second timer reports nothing. */
  method AnswerSession(q: Question, first: string, second: string)
    returns (panel: seq<string>, buttons: seq<ButtonStyle>, report: Option<Report>, panelAfter: seq<string>, reportAgain: Option<Report>)
    ensures panel == if first == q.correctAnswer then ["Correct!", "Excellent work! You're awesome at math!"]
                     else ["Not quite right", "The correct answer is " + q.correctAnswer]
    ensures |buttons| == |q.options|
    ensures forall i :: 0 <= i < |buttons| ==>
      && (buttons[i] == Success <==> q.options[i] == q.correctAnswer)
      && (buttons[i] == Error <==> q.options[i] != q.correctAnswer && q.options[i] == first)
    ensures report == Some(Report(first == q.correctAnswer, first))
    ensures panelAfter == [] && reportAgain == None
  {
    var card := new AnswerCard(q);
    card.HandleAnswerClick(first);
    card.HandleAnswerClick(second);
    panel := FeedbackLines(card.CurrentFeedback());
    buttons := card.ButtonStyles();
    report := card.TimerFires();
    panelAfter := FeedbackLines(card.CurrentFeedback());
    reportAgain := card.TimerFires();
  }
}
