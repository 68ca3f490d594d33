/** The practice-question panel: a question index that cycles through the selected
    function's questions, an answer check that ignores surrounding whitespace and letter case
    of the user's answer, a hint toggle, and a full reset whenever the function changes. */
module QuestionPanel {
  import opened Catalog
  import opened Wrappers
  import opened PanelLogic

  /** With the catalogue's two questions per function the index alternates 0, 1, 0, 1, ... */
  lemma TwoQuestionsAlternate(id: FunctionType, k: nat)
    ensures |GetFunction(id).questions| == 2
    ensures IndexAfter(k, |GetFunction(id).questions|) == k % 2
  {
    TwoQuestionsEach(id);
    IndexAfterIsMod(k, 2);
  }

  datatype FeedbackType = Blank | Success | Error

  datatype Feedback = Feedback(kind: FeedbackType, message: string)

  const NoFeedback: Feedback := Feedback(Blank, "")
  const CorrectFeedback: Feedback := Feedback(Success, "Correct! Well done.")
  const WrongFeedback: Feedback := Feedback(Error, "That's not quite right. Try again or check the hint.")

  /** What Check Answer does with a typed answer: nothing (None) when it is blank after
      trimming, otherwise success or error feedback by the answer comparison. */
  function Verdict(userAnswer: string, expected: string): (r: Option<Feedback>)
    ensures r.None? <==> AllWhitespace(userAnswer)
    ensures r == Some(CorrectFeedback) <==>
      !AllWhitespace(userAnswer) && IsCorrectAnswer(userAnswer, expected)
    ensures r == Some(WrongFeedback) <==>
      !AllWhitespace(userAnswer) && !IsCorrectAnswer(userAnswer, expected)
  {
    if Trim(userAnswer) == [] then None
    else if IsCorrectAnswer(userAnswer, expected) then Some(CorrectFeedback)
    else Some(WrongFeedback)
  }

  /** The panel's state for the function it is showing. */
  class Panel {
    var functionData: FunctionData
    var currentQuestionIndex: nat
    var userAnswer: string
    var showHint: bool
    var feedback: Feedback

    /** The index always names one of the function's questions. */
    ghost predicate Valid()
      reads this`functionData, this`currentQuestionIndex
    {
      currentQuestionIndex < |functionData.questions|
    }

    constructor (fd: FunctionData)
      requires |fd.questions| > 0
      ensures Valid() && functionData == fd
      ensures currentQuestionIndex == 0 && userAnswer == "" && !showHint && feedback == NoFeedback
    {
      functionData := fd;
      currentQuestionIndex := 0;
      userAnswer := "";
      showHint := false;
      feedback := NoFeedback;
    }

    /** The question on display. */
    function CurrentQuestion(): (q: Question)
      reads this`functionData, this`currentQuestionIndex
      requires Valid()
      ensures q in functionData.questions
    {
      functionData.questions[currentQuestionIndex]
    }

    /** Whether the Next Question action is offered. */
    predicate NextQuestionOffered()
      reads this`functionData
    {
      |functionData.questions| > 1
    }

    /** The reset effect when the shown function changes: back to the first question with
        the answer, hint and feedback cleared. */
    method ChangeFunction(fd: FunctionData)
      requires |fd.questions| > 0
      modifies this
      ensures Valid() && functionData == fd
      ensures currentQuestionIndex == 0 && userAnswer == "" && !showHint && feedback == NoFeedback
    {
      functionData := fd;
      userAnswer := "";
      showHint := false;
      feedback := NoFeedback;
      currentQuestionIndex := 0;
    }

    /** Typing into the answer field. */
    method SetUserAnswer(text: string)
      modifies this`userAnswer
      ensures userAnswer == text
    {
      userAnswer := text;
    }

    /** Check Answer: the feedback becomes the verdict on the typed answer for the question
        on display, or stays as it was when the answer is refused. The index, the answer
        text and the hint flag are never touched. */
    method CheckAnswer()
      requires Valid()
      modifies this`feedback
      ensures var verdict := Verdict(old(userAnswer), old(CurrentQuestion().answer));
        feedback == if verdict.Some? then verdict.value else old(feedback)
    {
      if Trim(userAnswer) == [] {
        return;
      }
      var isCorrect := IsCorrectAnswer(userAnswer, CurrentQuestion().answer);
      if isCorrect {
        feedback := CorrectFeedback;
      } else {
        feedback := WrongFeedback;
      }
    }

    /** Next Question, offered only when there is more than one question: the index
        advances modulo the question count, so another question is shown, and the answer,
        hint and feedback are cleared. */
    method NextQuestion()
      requires Valid() && NextQuestionOffered()
      modifies this`currentQuestionIndex, this`userAnswer, this`showHint, this`feedback
      ensures Valid()
      ensures currentQuestionIndex == NextIndex(old(currentQuestionIndex), |functionData.questions|)
      ensures currentQuestionIndex != old(currentQuestionIndex)
      ensures userAnswer == "" && !showHint && feedback == NoFeedback
    {
      var nextIndex := (currentQuestionIndex + 1) % |functionData.questions|;
      currentQuestionIndex := nextIndex;
      userAnswer := "";
      showHint := false;
      feedback := NoFeedback;
    }

    /** The hint button flips the hint flag. */
    method ToggleHint()
      modifies this`showHint
      ensures showHint == !old(showHint)
    {
      showHint := !showHint;
    }
  }

  /** Pressing the hint button twice leaves the panel as it was. */
  method ToggleHintTwice(p: Panel)
    modifies p
    ensures p.showHint == old(p.showHint)
    ensures p.currentQuestionIndex == old(p.currentQuestionIndex) && p.feedback == old(p.feedback)
    ensures p.userAnswer == old(p.userAnswer) && p.functionData == old(p.functionData)
  {
    p.ToggleHint();
    p.ToggleHint();
  }
}
