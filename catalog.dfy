/** The catalogue of parent functions: a static table of ten descriptors, each with
    pre-authored metadata strings and two practice questions, a lookup by id that falls back
    to the first entry, and the domain-guarded evaluators. */
module Catalog {
  import opened Wrappers

  /** The ten function ids, in the order the type lists them. */
  datatype FunctionType =
    | Constant
    | Identity
    | Quadratic
    | Cubic
    | SquareRoot
    | Reciprocal
    | AbsoluteValue
    | Exponential
    | Logarithmic
    | GreatestInteger

  /** The id string each function type stands for. */
  function IdName(t: FunctionType): string
  {
    match t
    case Constant => "constant"
    case Identity => "identity"
    case Quadratic => "quadratic"
    case Cubic => "cubic"
    case SquareRoot => "squareRoot"
    case Reciprocal => "reciprocal"
    case AbsoluteValue => "absoluteValue"
    case Exponential => "exponential"
    case Logarithmic => "logarithmic"
    case GreatestInteger => "greatestInteger"
  }

  /** Distinct ids have distinct id strings, so comparing datatype values is comparing the
      source's strings. */
  lemma IdNameInjective(s: FunctionType, t: FunctionType)
    ensures IdName(s) == IdName(t) <==> s == t
  {
  }

  datatype Question = Question(question: string, answer: string, hint: string)

  /** A function descriptor. The evaluator is not stored here; it is `Evaluate(id, ...)`. */
  datatype FunctionData = FunctionData(
    id: FunctionType,
    name: string,
    expression: string,
    latex: string,
    domain: string,
    range: string,
    xIntercepts: string,
    yIntercept: string,
    extrema: Option<string>,
    increasingIntervals: string,
    decreasingIntervals: string,
    endBehavior: string,
    questions: seq<Question>)

  /** The transcendental library functions the evaluators call (square root, exponential,
      natural logarithm), supplied by the caller. */
  datatype Libm = Libm(sqrt: real -> real, exp: real -> real, log: real -> real)

  function Abs(x: real): (r: real)
    ensures r >= 0.0 && (r == x || r == -x)
  {
    if x < 0.0 then -x else x
  }

  /** The mathematical domain of each parent function. */
  predicate InDomain(id: FunctionType, x: real)
  {
    match id
    case SquareRoot => x >= 0.0
    case Reciprocal => x != 0.0
    case Logarithmic => x > 0.0
    case _ => true
  }

  /** The evaluator of each entry: `None` stands for the NaN the source returns outside the
      domain. Every evaluator is total and undefined exactly outside its domain. */
  function Evaluate(id: FunctionType, m: Libm, x: real): (r: Option<real>)
    ensures r.None? <==> !InDomain(id, x)
  {
    match id
    case Constant => Some(3.0)
    case Identity => Some(x)
    case Quadratic => Some(x * x)
    case Cubic => Some(x * x * x)
    case SquareRoot => if x >= 0.0 then Some(m.sqrt(x)) else None
    case Reciprocal => if x != 0.0 then Some(1.0 / x) else None
    case AbsoluteValue => Some(Abs(x))
    case Exponential => Some(m.exp(x))
    case Logarithmic => if x > 0.0 then Some(m.log(x)) else None
    case GreatestInteger => Some(x.Floor as real)
  }

  /** The closed-form evaluators that need no library function. */
  lemma EvaluateClosedForms(m: Libm, x: real)
    ensures Evaluate(Constant, m, x) == Some(3.0)
    ensures Evaluate(Identity, m, x) == Some(x)
    ensures Evaluate(Reciprocal, m, x) == if x == 0.0 then None else Some(1.0 / x)
    ensures Evaluate(AbsoluteValue, m, x).Some?
    ensures Evaluate(AbsoluteValue, m, x).value >= 0.0
    ensures Evaluate(AbsoluteValue, m, x).value == x || Evaluate(AbsoluteValue, m, x).value == -x
  {
  }

  /** The guarded evaluators are NaN exactly off their domain. */
  lemma GuardedEvaluators(m: Libm, x: real)
    ensures Evaluate(SquareRoot, m, x).None? <==> x < 0.0
    ensures Evaluate(Reciprocal, m, x).None? <==> x == 0.0
    ensures Evaluate(Logarithmic, m, x).None? <==> x <= 0.0
  {
  }

  const ConstantEntry: FunctionData :=
    FunctionData(
      Constant, "Constant Function", "f(x) = c", "f(x) = 3",
      "(-∞, ∞)", "{3}", "None (unless c = 0)", "(0, 3)", None,
      "None", "None", "As x → ±∞, f(x) → 3",
      [ Question("What is the domain of this function?", "(-∞, ∞)",
                 "The constant function is defined for all real numbers."),
        Question("Is this function increasing, decreasing, or neither?", "neither",
                 "Think about how the y-values change as x changes.") ])

  const IdentityEntry: FunctionData :=
    FunctionData(
      Identity, "Identity Function", "f(x) = x", "f(x) = x",
      "(-∞, ∞)", "(-∞, ∞)", "(0, 0)", "(0, 0)", None,
      "(-∞, ∞)", "None", "As x → ∞, f(x) → ∞; As x → -∞, f(x) → -∞",
      [ Question("What is the slope of this function?", "1",
                 "The slope measures the rate of change of the function."),
        Question("Where does this function cross the x-axis?", "0",
                 "Find where f(x) = 0.") ])

  const QuadraticEntry: FunctionData :=
    FunctionData(
      Quadratic, "Quadratic Function", "f(x) = x²", "f(x) = x^2",
      "(-∞, ∞)", "[0, ∞)", "(0, 0)", "(0, 0)", Some("Minimum at (0, 0)"),
      "(0, ∞)", "(-∞, 0)", "As x → ±∞, f(x) → ∞",
      [ Question("What is the vertex of this function?", "(0, 0)",
                 "The vertex is the point where the parabola reaches its minimum or maximum value."),
        Question("Is this function even, odd, or neither?", "even",
                 "Test if f(-x) = f(x) for even functions.") ])

  const CubicEntry: FunctionData :=
    FunctionData(
      Cubic, "Cubic Function", "f(x) = x³", "f(x) = x^3",
      "(-∞, ∞)", "(-∞, ∞)", "(0, 0)", "(0, 0)", Some("Inflection point at (0, 0)"),
      "(-∞, ∞)", "None", "As x → ∞, f(x) → ∞; As x → -∞, f(x) → -∞",
      [ Question("What is the inflection point of this function?", "(0, 0)",
                 "The inflection point is where the concavity changes."),
        Question("Is this function even, odd, or neither?", "odd",
                 "Test if f(-x) = -f(x) for odd functions.") ])

  const SquareRootEntry: FunctionData :=
    FunctionData(
      SquareRoot, "Square Root Function", "f(x) = √x", "f(x) = \\sqrt{x}",
      "[0, ∞)", "[0, ∞)", "(0, 0)", "(0, 0)", None,
      "(0, ∞)", "None", "As x → ∞, f(x) → ∞",
      [ Question("Why is the domain of this function restricted to [0, ∞)?",
                 "We can't take the square root of negative numbers in the real number system",
                 "Think about what values would make the square root undefined for real numbers."),
        Question("How does this function behave as x gets very large?",
                 "It grows more slowly than the identity function",
                 "Compare the growth rate with f(x) = x.") ])

  const ReciprocalEntry: FunctionData :=
    FunctionData(
      Reciprocal, "Reciprocal Function", "f(x) = 1/x", "f(x) = \\frac{1}{x}",
      "(-∞, 0) ∪ (0, ∞)", "(-∞, 0) ∪ (0, ∞)", "None", "None (undefined at x = 0)", None,
      "(-∞, 0), (0, ∞)", "None", "As x → ±∞, f(x) → 0",
      [ Question("Why is this function undefined at x = 0?", "Division by zero is undefined",
                 "Think about what happens when you divide by zero."),
        Question("What are the horizontal asymptotes of this function?", "y = 0",
                 "Consider the behavior of the function as x approaches infinity.") ])

  const AbsoluteValueEntry: FunctionData :=
    FunctionData(
      AbsoluteValue, "Absolute Value Function", "f(x) = |x|", "f(x) = |x|",
      "(-∞, ∞)", "[0, ∞)", "(0, 0)", "(0, 0)", Some("Minimum at (0, 0)"),
      "(0, ∞)", "(-∞, 0)", "As x → ±∞, f(x) → ∞",
      [ Question("Where is the vertex of this function?", "(0, 0)",
                 "Look for the point where the function changes direction."),
        Question("Is this function differentiable at x = 0?", "no",
                 "Think about the sharp corner at the origin.") ])

  const ExponentialEntry: FunctionData :=
    FunctionData(
      Exponential, "Exponential Function", "f(x) = e^x", "f(x) = e^x",
      "(-∞, ∞)", "(0, ∞)", "None", "(0, 1)", None,
      "(-∞, ∞)", "None", "As x → ∞, f(x) → ∞; As x → -∞, f(x) → 0",
      [ Question("What is the y-intercept of this function?", "(0, 1)",
                 "Evaluate the function at x = 0."),
        Question("What is the horizontal asymptote of this function?", "y = 0",
                 "Consider what happens as x approaches negative infinity.") ])

  const LogarithmicEntry: FunctionData :=
    FunctionData(
      Logarithmic, "Logarithmic Function", "f(x) = ln(x)", "f(x) = \\ln(x)",
      "(0, ∞)", "(-∞, ∞)", "(1, 0)", "None (undefined at x = 0)", None,
      "(0, ∞)", "None", "As x → ∞, f(x) → ∞; As x → 0⁺, f(x) → -∞",
      [ Question("What is the vertical asymptote of this function?", "x = 0",
                 "Consider what happens as x approaches zero from the right."),
        Question("At what point does this function cross the x-axis?", "(1, 0)",
                 "Find where f(x) = 0.") ])

  const GreatestIntegerEntry: FunctionData :=
    FunctionData(
      GreatestInteger, "Greatest Integer Function", "f(x) = ⌊x⌋", "f(x) = \\lfloor x \\rfloor",
      "(-∞, ∞)", "Z (integers)", "0", "(0, 0)", None,
      "None (step function)", "None (step function)",
      "As x → ∞, f(x) → ∞; As x → -∞, f(x) → -∞",
      [ Question("Is this function continuous?", "no",
                 "Consider what happens at integer values."),
        Question("What is the value of f(2.75)?", "2",
                 "The greatest integer function returns the largest integer less than or equal to x.") ])

  /** The table, in the source's order. */
  const Functions: seq<FunctionData> := [
    ConstantEntry,
    IdentityEntry,
    QuadraticEntry,
    CubicEntry,
    SquareRootEntry,
    ReciprocalEntry,
    AbsoluteValueEntry,
    ExponentialEntry,
    LogarithmicEntry,
    GreatestIntegerEntry
  ]

  /** The position of each id in the table. */
  function IndexOf(t: FunctionType): (k: nat)
    ensures k < |Functions| && Functions[k].id == t
  {
    match t
    case Constant => 0
    case Identity => 1
    case Quadratic => 2
    case Cubic => 3
    case SquareRoot => 4
    case Reciprocal => 5
    case AbsoluteValue => 6
    case Exponential => 7
    case Logarithmic => 8
    case GreatestInteger => 9
  }

  /** The table has ten entries and every id has one (IndexOf finds it); each entry sits at
      the position of its own id, so no id occurs twice, not even as the source's string. */
  lemma CatalogCoversEveryId()
    ensures |Functions| == 10
    ensures forall k :: 0 <= k < |Functions| ==> IndexOf(Functions[k].id) == k
    ensures forall i, j :: 0 <= i < j < |Functions| ==> Functions[i].id != Functions[j].id
    ensures forall i, j :: 0 <= i < j < |Functions| ==> IdName(Functions[i].id) != IdName(Functions[j].id)
  {
    forall i, j | 0 <= i < j < |Functions|
      ensures Functions[i].id != Functions[j].id
      ensures IdName(Functions[i].id) != IdName(Functions[j].id)
    {
      assert IndexOf(Functions[i].id) == i && IndexOf(Functions[j].id) == j;
      IdNameInjective(Functions[i].id, Functions[j].id);
    }
  }

  /** Every entry carries exactly two practice questions. */
  lemma TwoQuestionsEach(id: FunctionType)
    ensures |GetFunction(id).questions| == 2
  {
    GetFunctionAt(id);
  }

  /** `extrema` is given for exactly the quadratic, cubic and absolute-value entries. */
  lemma ExtremaEntries(id: FunctionType)
    ensures GetFunction(id).extrema.Some? <==> id == Quadratic || id == Cubic || id == AbsoluteValue
  {
    GetFunctionAt(id);
  }

  /** `find`: the first entry whose id equals `id`, if any. */
  function Find(entries: seq<FunctionData>, id: FunctionType): (r: Option<FunctionData>)
    ensures r.Some? ==> r.value in entries && r.value.id == id
    ensures r.None? <==> forall k :: 0 <= k < |entries| ==> entries[k].id != id
  {
    if entries == [] then None
    else if entries[0].id == id then Some(entries[0])
    else Find(entries[1..], id)
  }

  /** `find` returns the FIRST match: the entry at the least index carrying the id. */
  lemma {:induction false} FindIsFirst(entries: seq<FunctionData>, id: FunctionType, k: nat)
    requires k < |entries| && entries[k].id == id
    requires forall j :: 0 <= j < k ==> entries[j].id != id
    ensures Find(entries, id) == Some(entries[k])
  {
    if k > 0 {
      FindIsFirst(entries[1..], id, k - 1);
    }
  }

  /** The lookup with fallback to the first entry (the constant function). Because the table
      covers every id, the fallback is never taken: the entry found always carries `id`. */
  function GetFunction(id: FunctionType): (r: FunctionData)
    ensures r in Functions && r.id == id
  {
    assert Functions[IndexOf(id)].id == id;
    Find(Functions, id).GetOr(Functions[0])
  }

  /** `GetFunction` returns the unique table entry of its id. */
  lemma GetFunctionIsEntry(k: nat)
    requires k < |Functions|
    ensures GetFunction(Functions[k].id) == Functions[k]
  {
    CatalogCoversEveryId();
    FindIsFirst(Functions, Functions[k].id, k);
  }

  /** The table entry of each id, by name. */
  function Entry(id: FunctionType): FunctionData
  {
    match id
    case Constant => ConstantEntry
    case Identity => IdentityEntry
    case Quadratic => QuadraticEntry
    case Cubic => CubicEntry
    case SquareRoot => SquareRootEntry
    case Reciprocal => ReciprocalEntry
    case AbsoluteValue => AbsoluteValueEntry
    case Exponential => ExponentialEntry
    case Logarithmic => LogarithmicEntry
    case GreatestInteger => GreatestIntegerEntry
  }

  /** `GetFunction(id)` is the entry named for `id`, at the position of `id`. */
  lemma GetFunctionAt(id: FunctionType)
    ensures GetFunction(id) == Functions[IndexOf(id)] == Entry(id)
  {
    GetFunctionIsEntry(IndexOf(id));
  }
}
