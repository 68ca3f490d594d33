/** The end-behaviour tutorial: a five-step exercise on one end of a polynomial's graph,
    repeated on randomly chosen examples, with a log of accepted answers, a progress
    counter and a one-way completion flag. */
module EndBehaviorTutorial {
  import opened Wrappers

  /** The end of the graph under study. */
  datatype End = Left | Right

  /** The five steps of one cycle, in order. */
  datatype Step = SelectXDirection | SelectEnd | SelectYDirection | CompleteEndBehavior | ShowSummary
  {
    /** The step's number. */
    function Index(): (n: nat)
      ensures n < 5
    {
      match this
      case SelectXDirection => 0
      case SelectEnd => 1
      case SelectYDirection => 2
      case CompleteEndBehavior => 3
      case ShowSummary => 4
    }
  }

  /** Where x and f(x) go at one end, as the texts "-∞" / "∞". */
  datatype EndBehavior = EndBehavior(x: string, fx: string)

  /** A tutorial example. Its evaluator is not part of the record: the graph takes it as a
      separate parameter. */
  datatype TutorialFunction = TutorialFunction(
    name: string,
    expression: string,
    leftEndBehavior: EndBehavior,
    rightEndBehavior: EndBehavior,
    degree: int,
    leading: real)

  function EndName(e: End): string
  {
    match e
    case Left => "left"
    case Right => "right"
  }

  /** `toUpperCase` of the end's name. */
  function EndNameUpper(e: End): string
  {
    match e
    case Left => "LEFT"
    case Right => "RIGHT"
  }

  /** The direction x takes at the studied end. */
  function XTarget(e: End): string
  {
    if e == Left then "-∞" else "∞"
  }

  /** x goes to "-∞" exactly at the left end and to "∞" exactly at the right end. */
  lemma XTargetNamesEnd(e: End)
    ensures XTarget(e) == "-∞" <==> e == Left
    ensures XTarget(e) == "∞" <==> e == Right
  {
    assert |"-∞"| == 2 && |"∞"| == 1;
    if e == Right {
      assert XTarget(e) == "∞";
    }
  }

  /** The end behaviour the example states for the studied end. */
  function Expected(f: TutorialFunction, e: End): EndBehavior
  {
    if e == Left then f.leftEndBehavior else f.rightEndBehavior
  }

  /** An entry of the log of accepted answers. */
  datatype LogItem =
    | XApproaches(direction: string)
    | SelectedTheEnd(end: End)
    | FxApproaches(direction: string)
    | CompleteStatement(x: string, fx: string)

  /** The text the source writes for each log entry. */
  function LogText(item: LogItem): string
  {
    match item
    case XApproaches(d) => "X approaches " + d
    case SelectedTheEnd(e) => "Selected the " + EndName(e) + " end"
    case FxApproaches(d) => "f(x) approaches " + d
    case CompleteStatement(x, fx) => "Complete end behavior: As x → " + x + ", f(x) → " + fx
  }

  /** Entries of different kinds never have the same text, and within a kind the text
      determines the entry (for the completed statement, given its x part). */
  lemma LogTextDistinguishes(a: LogItem, b: LogItem)
    requires LogText(a) == LogText(b)
    ensures a.XApproaches? <==> b.XApproaches?
    ensures a.SelectedTheEnd? <==> b.SelectedTheEnd?
    ensures a.FxApproaches? <==> b.FxApproaches?
    ensures a.XApproaches? || a.SelectedTheEnd? || a.FxApproaches? ==> a == b
  {
    var s, t := LogText(a), LogText(b);
    assert s[0] == t[0];
    match a {
      case XApproaches(d) =>
        if b.XApproaches? {
          assert d == s[|"X approaches "|..] == t[|"X approaches "|..] == b.direction;
        }
      case FxApproaches(d) =>
        if b.FxApproaches? {
          assert d == s[|"f(x) approaches "|..] == t[|"f(x) approaches "|..] == b.direction;
        }
      case SelectedTheEnd(e) =>
      case CompleteStatement(_, _) =>
    }
  }

  /** The feedback line under the tutorial. */
  datatype Message =
    | Blank
    | XAccepted
    | XRejected(studied: End)
    | EndAccepted
    | EndRejected(studied: End)
    | YAccepted
    | YRejected(studied: End)
    | SubmitAccepted(studied: End)
    | SubmitRejected
    | Completed

  /** The text the source shows for each message. */
  function MessageText(m: Message): string
  {
    match m
    case Blank => ""
    case XAccepted => "Correct! Now select which end of the graph we're examining."
    case XRejected(e) => "Not quite. We're focusing on the " + EndNameUpper(e) + " end of the graph. Try again!"
    case EndAccepted => "Correct! Now determine which direction the function values go at this end."
    case EndRejected(e) => "Not quite. Look at the " + EndName(e) + " end of the graph and try again!"
    case YAccepted => "Correct! Now complete the end behavior statement."
    case YRejected(e) =>
      "Not quite. Look at the direction the function is heading as x approaches " + XTarget(e) + "."
    case SubmitAccepted(e) =>
      "Excellent! You've correctly identified the " + EndName(e) + " end behavior of this function."
    case SubmitRejected => "That's not quite right. Review your selections and try again."
    case Completed => "Congratulations! You've completed the end behavior tutorial!"
  }

  /** The log entry written when step `k` of a cycle is answered correctly. */
  function LogEntry(f: TutorialFunction, e: End, k: nat): LogItem
    requires k < 4
  {
    if k == 0 then XApproaches(XTarget(e))
    else if k == 1 then SelectedTheEnd(e)
    else if k == 2 then FxApproaches(Expected(f, e).fx)
    else CompleteStatement(Expected(f, e).x, Expected(f, e).fx)
  }

  /** The log of a cycle whose first `n` steps have been answered. */
  function CycleLog(f: TutorialFunction, e: End, n: nat): (log: seq<LogItem>)
    requires n <= 4
    ensures |log| == n
  {
    if n == 0 then [] else CycleLog(f, e, n - 1) + [LogEntry(f, e, n - 1)]
  }

  /** The k-th entry of a cycle's log is the one written when step k was answered. */
  lemma {:induction false} CycleLogEntries(f: TutorialFunction, e: End, n: nat)
    requires n <= 4
    ensures forall k :: 0 <= k < n ==> CycleLog(f, e, n)[k] == LogEntry(f, e, k)
  {
    if n > 0 {
      CycleLogEntries(f, e, n - 1);
    }
  }

  /** Graph flags: the studied end is shown from the start, both ends from step SelectEnd. */
  predicate ShowLeftEnd(e: End, step: Step)
  {
    e == Left || step.Index() >= SelectEnd.Index()
  }

  predicate ShowRightEnd(e: End, step: Step)
  {
    e == Right || step.Index() >= SelectEnd.Index()
  }

  /** Graph flags: the selected end is highlighted from step SelectYDirection. */
  predicate HighlightLeftEnd(selectedEnd: Option<End>, step: Step)
  {
    selectedEnd == Some(Left) && step.Index() >= SelectYDirection.Index()
  }

  predicate HighlightRightEnd(selectedEnd: Option<End>, step: Step)
  {
    selectedEnd == Some(Right) && step.Index() >= SelectYDirection.Index()
  }

  /** The studied end is always shown; the other end is shown exactly from step SelectEnd;
      at most one end is highlighted, and a highlighted end is shown. */
  lemma GraphFlags(e: End, selectedEnd: Option<End>, step: Step)
    ensures e == Left ==> ShowLeftEnd(e, step)
    ensures e == Right ==> ShowRightEnd(e, step)
    ensures ShowLeftEnd(e, step) && ShowRightEnd(e, step) <==> step != SelectXDirection
    ensures !(HighlightLeftEnd(selectedEnd, step) && HighlightRightEnd(selectedEnd, step))
    ensures HighlightLeftEnd(selectedEnd, step) ==> ShowLeftEnd(e, step)
    ensures HighlightRightEnd(selectedEnd, step) ==> ShowRightEnd(e, step)
  {
  }

  /** The tutorial's state. */
  class Tutorial {
    const functions: seq<TutorialFunction>
    var currentFunction: TutorialFunction
    var tutorialStep: Step
    var selectedXDirection: Option<string>
    var selectedEnd: Option<End>
    var selectedYDirection: Option<string>
    var userEndBehaviorX: string
    var userEndBehaviorFx: string
    var correctChoices: seq<LogItem>
    var feedback: Message
    var isCorrect: Option<bool>
    var completed: bool
    var progress: nat
    var currentEndType: End

    /** What the steps already passed guarantee: every earlier answer was the right one, and
        until completion the log holds exactly one entry per step passed. */
    ghost predicate Valid()
      reads this
    {
      |functions| > 0 && currentFunction in functions
      && SelectionsValid() && StatementValid() && LogValid()
    }

    /** Each selection made in a step already passed is the right one. */
    ghost predicate SelectionsValid()
      reads this`tutorialStep, this`selectedXDirection, this`selectedEnd,
        this`selectedYDirection, this`currentFunction, this`currentEndType
    {
      (tutorialStep.Index() >= 1 ==> selectedXDirection == Some(XTarget(currentEndType)))
      && (tutorialStep.Index() >= 2 ==> selectedEnd == Some(currentEndType))
      && (tutorialStep.Index() >= 3 ==>
            selectedYDirection == Some(Expected(currentFunction, currentEndType).fx))
    }

    /** In the summary, the submitted statement is the right one. */
    ghost predicate StatementValid()
      reads this`tutorialStep, this`userEndBehaviorX, this`userEndBehaviorFx,
        this`currentFunction, this`currentEndType
    {
      tutorialStep == ShowSummary ==>
        userEndBehaviorX == Expected(currentFunction, currentEndType).x
        && userEndBehaviorFx == Expected(currentFunction, currentEndType).fx
    }

    /** Until completion the log has one entry per step passed; completion needs three
        examples. */
    ghost predicate LogValid()
      reads this`tutorialStep, this`correctChoices, this`completed, this`progress,
        this`currentFunction, this`currentEndType
    {
      (!completed ==>
        correctChoices == CycleLog(currentFunction, currentEndType, tutorialStep.Index()))
      && (completed ==> progress >= 3)
    }

    /** Mounting: the initial state, then the cycle-start effect with the two random
        choices given as `randomIndex` and `endType`. */
    constructor (functions: seq<TutorialFunction>, randomIndex: nat, endType: End)
      requires randomIndex < |functions|
      ensures Valid() && this.functions == functions
      ensures currentFunction == functions[randomIndex] && currentEndType == endType
      ensures tutorialStep == SelectXDirection && !completed && progress == 0
      ensures selectedXDirection == None && selectedEnd == None && selectedYDirection == None
      ensures userEndBehaviorX == "" && userEndBehaviorFx == ""
      ensures correctChoices == [] && feedback == Blank && isCorrect == None
    {
      this.functions := functions;
      currentFunction := functions[0];
      tutorialStep := SelectXDirection;
      selectedXDirection := None;
      selectedEnd := None;
      selectedYDirection := None;
      userEndBehaviorX := "";
      userEndBehaviorFx := "";
      correctChoices := [];
      feedback := Blank;
      isCorrect := None;
      completed := false;
      progress := 0;
      currentEndType := Left;
      new;
      StartCycle(randomIndex, endType);
    }

    /** The cycle-start effect: a new example and end, and an empty log and feedback. It
        runs whenever the step becomes SelectXDirection while the tutorial is not completed. */
    method StartCycle(randomIndex: nat, endType: End)
      requires tutorialStep == SelectXDirection && !completed
      requires randomIndex < |functions|
      modifies this`currentFunction, this`correctChoices, this`feedback, this`isCorrect,
        this`currentEndType
      ensures currentFunction == functions[randomIndex] && currentEndType == endType
      ensures correctChoices == [] && feedback == Blank && isCorrect == None
    {
      currentFunction := functions[randomIndex];
      correctChoices := [];
      feedback := Blank;
      isCorrect := None;
      currentEndType := endType;
    }

    /** Step 1: which way x goes. Accepted exactly when it is the studied end's direction. */
    method HandleXDirectionSelect(direction: string)
      requires Valid() && !completed && tutorialStep == SelectXDirection
      modifies this`selectedXDirection, this`isCorrect, this`feedback, this`correctChoices,
        this`tutorialStep
      ensures Valid() && selectedXDirection == Some(direction)
      ensures direction == XTarget(currentEndType) ==>
        isCorrect == Some(true) && feedback == XAccepted
        && correctChoices == old(correctChoices) + [XApproaches(direction)]
        && tutorialStep == SelectEnd
      ensures direction != XTarget(currentEndType) ==>
        isCorrect == Some(false) && feedback == XRejected(currentEndType)
        && correctChoices == old(correctChoices) && tutorialStep == SelectXDirection
    {
      selectedXDirection := Some(direction);
      var correctDirection := if currentEndType == Left then "-∞" else "∞";
      if direction == correctDirection {
        assert CycleLog(currentFunction, currentEndType, 1)
          == correctChoices + [LogEntry(currentFunction, currentEndType, 0)];
        isCorrect := Some(true);
        feedback := XAccepted;
        correctChoices := correctChoices + [XApproaches(direction)];
        tutorialStep := SelectEnd;
      } else {
        isCorrect := Some(false);
        feedback := XRejected(currentEndType);
      }
    }

    /** Step 2: which end of the graph. The choice is recorded either way and accepted
        exactly when it is the studied end. */
    method HandleEndSelect(end: End)
      requires Valid() && !completed && tutorialStep == SelectEnd
      modifies this`selectedEnd, this`isCorrect, this`feedback, this`correctChoices,
        this`tutorialStep
      ensures Valid() && selectedEnd == Some(end)
      ensures end == currentEndType ==>
        isCorrect == Some(true) && feedback == EndAccepted
        && correctChoices == old(correctChoices) + [SelectedTheEnd(end)]
        && tutorialStep == SelectYDirection
      ensures end != currentEndType ==>
        isCorrect == Some(false) && feedback == EndRejected(currentEndType)
        && correctChoices == old(correctChoices) && tutorialStep == SelectEnd
    {
      selectedEnd := Some(end);
      if end == currentEndType {
        assert CycleLog(currentFunction, currentEndType, 2)
          == correctChoices + [LogEntry(currentFunction, currentEndType, 1)];
        isCorrect := Some(true);
        feedback := EndAccepted;
        correctChoices := correctChoices + [SelectedTheEnd(end)];
        tutorialStep := SelectYDirection;
      } else {
        isCorrect := Some(false);
        feedback := EndRejected(currentEndType);
      }
    }

    /** Step 3: which way f(x) goes. Accepted exactly when it is the example's f(x)
        direction at the studied end. */
    method HandleYDirectionSelect(direction: string)
      requires Valid() && !completed && tutorialStep == SelectYDirection
      modifies this`selectedYDirection, this`isCorrect, this`feedback, this`correctChoices,
        this`tutorialStep
      ensures Valid() && selectedYDirection == Some(direction)
      ensures direction == Expected(currentFunction, currentEndType).fx ==>
        isCorrect == Some(true) && feedback == YAccepted
        && correctChoices == old(correctChoices) + [FxApproaches(direction)]
        && tutorialStep == CompleteEndBehavior
      ensures direction != Expected(currentFunction, currentEndType).fx ==>
        isCorrect == Some(false) && feedback == YRejected(currentEndType)
        && correctChoices == old(correctChoices) && tutorialStep == SelectYDirection
    {
      selectedYDirection := Some(direction);
      var correctDirection := if currentEndType == Left
        then currentFunction.leftEndBehavior.fx
        else currentFunction.rightEndBehavior.fx;
      assert correctDirection == Expected(currentFunction, currentEndType).fx;
      if direction == correctDirection {
        assert CycleLog(currentFunction, currentEndType, 3)
          == correctChoices + [LogEntry(currentFunction, currentEndType, 2)];
        isCorrect := Some(true);
        feedback := YAccepted;
        correctChoices := correctChoices + [FxApproaches(direction)];
        tutorialStep := CompleteEndBehavior;
      } else {
        isCorrect := Some(false);
        feedback := YRejected(currentEndType);
      }
    }

    /** The two selects of step 4. */
    method SetUserEndBehaviorX(value: string)
      requires Valid() && !completed && tutorialStep == CompleteEndBehavior
      modifies this`userEndBehaviorX
      ensures Valid() && userEndBehaviorX == value
    {
      userEndBehaviorX := value;
    }

    method SetUserEndBehaviorFx(value: string)
      requires Valid() && !completed && tutorialStep == CompleteEndBehavior
      modifies this`userEndBehaviorFx
      ensures Valid() && userEndBehaviorFx == value
    {
      userEndBehaviorFx := value;
    }

    /** Step 4: the full statement, offered once both selects are filled in. Accepted
        exactly when both parts match the example; acceptance is the only place progress
        grows, by one. */
    method HandleEndBehaviorSubmit()
      requires Valid() && !completed && tutorialStep == CompleteEndBehavior
      requires userEndBehaviorX != "" && userEndBehaviorFx != ""
      modifies this`isCorrect, this`feedback, this`correctChoices, this`tutorialStep,
        this`progress
      ensures Valid()
      ensures var expected := Expected(currentFunction, currentEndType);
        userEndBehaviorX == expected.x && userEndBehaviorFx == expected.fx ==>
          isCorrect == Some(true) && feedback == SubmitAccepted(currentEndType)
          && correctChoices == old(correctChoices) + [CompleteStatement(userEndBehaviorX, userEndBehaviorFx)]
          && tutorialStep == ShowSummary && progress == old(progress) + 1
      ensures var expected := Expected(currentFunction, currentEndType);
        !(userEndBehaviorX == expected.x && userEndBehaviorFx == expected.fx) ==>
          isCorrect == Some(false) && feedback == SubmitRejected
          && correctChoices == old(correctChoices) && tutorialStep == CompleteEndBehavior
          && progress == old(progress)
    {
      var correctX := if currentEndType == Left
        then currentFunction.leftEndBehavior.x
        else currentFunction.rightEndBehavior.x;
      var correctFx := if currentEndType == Left
        then currentFunction.leftEndBehavior.fx
        else currentFunction.rightEndBehavior.fx;
      assert correctX == Expected(currentFunction, currentEndType).x;
      assert correctFx == Expected(currentFunction, currentEndType).fx;
      if userEndBehaviorX == correctX && userEndBehaviorFx == correctFx {
        assert CycleLog(currentFunction, currentEndType, 4)
          == correctChoices + [LogEntry(currentFunction, currentEndType, 3)];
        isCorrect := Some(true);
        feedback := SubmitAccepted(currentEndType);
        correctChoices := correctChoices + [CompleteStatement(userEndBehaviorX, userEndBehaviorFx)];
        tutorialStep := ShowSummary;
        progress := progress + 1;
        assert StatementValid() && LogValid();
      } else {
        isCorrect := Some(false);
        feedback := SubmitRejected;
      }
    }

    /** "Try Another Example" in the summary, or "Restart Tutorial" on the completion
        screen: back to step 1 with the selections, inputs, verdict and feedback cleared.
        Progress and the completion flag are never touched, so after completion the
        completion screen stays; before completion the cycle-start effect follows. */
    method HandleRestartTutorial(randomIndex: nat, endType: End)
      requires Valid() && (completed || tutorialStep == ShowSummary)
      requires randomIndex < |functions|
      modifies this`tutorialStep, this`selectedXDirection, this`selectedEnd,
        this`selectedYDirection, this`userEndBehaviorX, this`userEndBehaviorFx, this`isCorrect,
        this`feedback, this`currentFunction, this`correctChoices, this`currentEndType
      ensures Valid()
      ensures tutorialStep == SelectXDirection
      ensures selectedXDirection == None && selectedEnd == None && selectedYDirection == None
      ensures userEndBehaviorX == "" && userEndBehaviorFx == ""
      ensures isCorrect == None && feedback == Blank
      ensures completed == old(completed) && progress == old(progress)
      ensures !completed ==>
        currentFunction == functions[randomIndex] && currentEndType == endType
        && correctChoices == []
      ensures completed ==>
        currentFunction == old(currentFunction) && currentEndType == old(currentEndType)
        && correctChoices == old(correctChoices)
    {
      ClearCycle();
      // Before completion the step was ShowSummary, so it changed and the effect runs.
      if !completed {
        StartCycle(randomIndex, endType);
        assert correctChoices == CycleLog(currentFunction, currentEndType, 0);
      }
    }

    /** The state updates of a restart: step 1 with selections, inputs, verdict and
        feedback cleared. */
    method ClearCycle()
      modifies this`tutorialStep, this`selectedXDirection, this`selectedEnd,
        this`selectedYDirection, this`userEndBehaviorX, this`userEndBehaviorFx, this`isCorrect,
        this`feedback
      ensures tutorialStep == SelectXDirection && SelectionsValid() && StatementValid()
      ensures selectedXDirection == None && selectedEnd == None && selectedYDirection == None
      ensures userEndBehaviorX == "" && userEndBehaviorFx == ""
      ensures isCorrect == None && feedback == Blank
    {
      tutorialStep := SelectXDirection;
      selectedXDirection := None;
      selectedEnd := None;
      selectedYDirection := None;
      userEndBehaviorX := "";
      userEndBehaviorFx := "";
      isCorrect := None;
      feedback := Blank;
    }

    /** "Restart Tutorial" as the completion screen's label promises: completion and
        progress are cleared too, and a fresh cycle starts. From the summary it behaves as
        the restart above. */
    method HandleRestartTutorialCorrected(randomIndex: nat, endType: End)
      requires Valid() && (completed || tutorialStep == ShowSummary)
      requires randomIndex < |functions|
      modifies this`tutorialStep, this`selectedXDirection, this`selectedEnd,
        this`selectedYDirection, this`userEndBehaviorX, this`userEndBehaviorFx, this`isCorrect,
        this`feedback, this`currentFunction, this`correctChoices, this`currentEndType,
        this`completed, this`progress
      ensures Valid() && !completed && tutorialStep == SelectXDirection
      ensures selectedXDirection == None && selectedEnd == None && selectedYDirection == None
      ensures userEndBehaviorX == "" && userEndBehaviorFx == ""
      ensures isCorrect == None && feedback == Blank
      ensures currentFunction == functions[randomIndex] && currentEndType == endType
      ensures correctChoices == []
      ensures progress == if old(completed) then 0 else old(progress)
      ensures old(completed) ==> !CompleteOffered()
    {
      ClearCycle();
      if completed {
        completed := false;
        progress := 0;
      }
      StartCycle(randomIndex, endType);
      assert correctChoices == CycleLog(currentFunction, currentEndType, 0);
    }

    /** Whether "Complete Tutorial" is offered: in the summary, after three examples. */
    predicate CompleteOffered()
      reads this
    {
      !completed && tutorialStep == ShowSummary && progress >= 3
    }

    /** "Complete Tutorial": sets the one-way completion flag. */
    method HandleCompleteTutorial()
      requires Valid() && CompleteOffered()
      modifies this`completed, this`feedback
      ensures Valid() && completed && feedback == Completed
    {
      completed := true;
      feedback := Completed;
    }
  }

  /** In a valid state the highlighted end, if any, is the end under study. */
  lemma HighlightIsStudiedEnd(t: Tutorial)
    requires t.Valid()
    ensures HighlightLeftEnd(t.selectedEnd, t.tutorialStep) ==> t.currentEndType == Left
    ensures HighlightRightEnd(t.selectedEnd, t.tutorialStep) ==> t.currentEndType == Right
  {
  }

  /** Until completion, the log has one entry per step passed. */
  lemma LogTracksStep(t: Tutorial)
    requires t.Valid() && !t.completed
    ensures |t.correctChoices| == t.tutorialStep.Index()
  {
  }

  /** As written, "Restart Tutorial" on the completion screen leaves the tutorial completed
      with its progress, so the completion screen is shown again. */
  method RestartKeepsCompletionScreen(t: Tutorial, randomIndex: nat, endType: End)
    requires t.Valid() && t.completed && randomIndex < |t.functions|
    modifies t
    ensures t.Valid() && t.completed && t.progress == old(t.progress) && t.progress >= 3
  {
    t.HandleRestartTutorial(randomIndex, endType);
  }

  /** The three selections of a cycle answered correctly take the tutorial from step 1 to
      the full statement, with three log entries. */
  method PlaySelections(t: Tutorial)
    requires t.Valid() && !t.completed && t.tutorialStep == SelectXDirection
    modifies t
    ensures t.Valid() && !t.completed && t.tutorialStep == CompleteEndBehavior
    ensures t.progress == old(t.progress)
    ensures t.correctChoices == CycleLog(t.currentFunction, t.currentEndType, 3)
    ensures t.currentFunction == old(t.currentFunction) && t.currentEndType == old(t.currentEndType)
  {
    t.HandleXDirectionSelect(XTarget(t.currentEndType));
    t.HandleEndSelect(t.currentEndType);
    t.HandleYDirectionSelect(Expected(t.currentFunction, t.currentEndType).fx);
  }

  /** A full cycle answered correctly: five presses take the tutorial from step 1 to the
      summary, log the four accepted answers and add one to progress. */
  method PlayCycle(t: Tutorial)
    requires t.Valid() && !t.completed && t.tutorialStep == SelectXDirection
    requires Expected(t.currentFunction, t.currentEndType).x != ""
    requires Expected(t.currentFunction, t.currentEndType).fx != ""
    modifies t
    ensures t.Valid() && !t.completed && t.tutorialStep == ShowSummary
    ensures t.progress == old(t.progress) + 1
    ensures t.correctChoices == CycleLog(t.currentFunction, t.currentEndType, 4)
    ensures t.currentFunction == old(t.currentFunction) && t.currentEndType == old(t.currentEndType)
  {
    PlaySelections(t);
    var expected := Expected(t.currentFunction, t.currentEndType);
    t.SetUserEndBehaviorX(expected.x);
    t.SetUserEndBehaviorFx(expected.fx);
    t.HandleEndBehaviorSubmit();
  }
}
