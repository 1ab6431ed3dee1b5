/**
 * The Core Decision Agent: its structured record and the safe fallback that
 * `run_core_decisions` returns when the language-model call does not yield one.
 * The call itself is outside the model; only its outcome is.
 */
module DecisionAgent {
  import opened Wrappers

  /** `DecisionType`: the literal "skill_check" or "narrative_continues". */
  datatype DecisionType = SkillCheck | NarrativeContinues {
    function Literal(): string {
      match this
      case SkillCheck => "skill_check"
      case NarrativeContinues => "narrative_continues"
    }
  }

  /** Validation of a `next_action` string against the two literals. */
  function ParseDecisionType(s: string): (r: Option<DecisionType>)
    ensures r.Some? ==> r.value.Literal() == s
  {
    if s == "skill_check" then Some(SkillCheck)
    else if s == "narrative_continues" then Some(NarrativeContinues)
    else None
  }

  /** The record `CoreDecisions`; the three roll fields are optional. */
  datatype CoreDecisions = CoreDecisions(
    nextAction: DecisionType,
    ability: Option<string>,
    abilityScore: Option<int>,
    dc: Option<int>,
    responseText: string)

  /** Why a set of fields is not a valid `CoreDecisions`. */
  datatype ValidationError = MissingNextAction | BadNextAction(given: string) | MissingResponseText

  datatype Validated = Valid(decisions: CoreDecisions) | Invalid(error: ValidationError)

  /**
   * Building a `CoreDecisions` from fields: `next_action` and `response_text`
   * are required, `next_action` must be one of the two literals, and an
   * omitted roll field defaults to none.
   */
  function MakeCoreDecisions(nextAction: Option<string>, ability: Option<string>,
                             abilityScore: Option<int>, dc: Option<int>,
                             responseText: Option<string>): (r: Validated)
    ensures r.Valid? <==> nextAction.Some? && ParseDecisionType(nextAction.value).Some? && responseText.Some?
    ensures r.Valid? ==> r.decisions.nextAction.Literal() == nextAction.value
                         && r.decisions.responseText == responseText.value
    ensures r.Valid? ==> r.decisions.ability == ability && r.decisions.abilityScore == abilityScore
                         && r.decisions.dc == dc
  {
    match nextAction
    case None => Invalid(MissingNextAction)
    case Some(given) =>
      match ParseDecisionType(given)
      case None => Invalid(BadNextAction(given))
      case Some(action) =>
        if responseText.None? then Invalid(MissingResponseText)
        else Valid(CoreDecisions(action, ability, abilityScore, dc, responseText.value))
  }

  /**
   * What the structured-output call produced: some object, or a raised
   * `Exception` with its text (the only kind the `except` clause catches).
   */
  datatype PyObject = Decisions(decisions: CoreDecisions) | OtherObject(typeName: string)
  datatype CallOutcome = Returned(result: PyObject) | Raised(message: string)

  const FallbackPrefix: string := "The AI encountered an error:"
  const FallbackSuffix: string := ".Please reload."
  /** The text of the ValueError raised for a result that is not a `CoreDecisions`. */
  const NotStructuredMessage: string := "LLM did not return the expected structured object."

  function FallbackText(error: string): string {
    FallbackPrefix + error + FallbackSuffix
  }

  /** The fallback decision for an error: narration continues, with no roll fields. */
  function Fallback(error: string): (r: CoreDecisions)
    ensures r.nextAction == NarrativeContinues
    ensures r.ability.None? && r.abilityScore.None? && r.dc.None?
    ensures |r.responseText| == |FallbackPrefix| + |error| + |FallbackSuffix|
    ensures r.responseText[..|FallbackPrefix|] == FallbackPrefix
    ensures r.responseText[|FallbackPrefix|..|FallbackPrefix| + |error|] == error
    ensures r.responseText[|FallbackPrefix| + |error|..] == FallbackSuffix
  {
    var made := MakeCoreDecisions(Some("narrative_continues"), None, None, None, Some(FallbackText(error)));
    assert made.Valid?;
    made.decisions
  }

  /**
   * `run_core_decisions`: a `CoreDecisions` result is passed through; any other
   * result is turned into a ValueError, and every error ends in the fallback.
   */
  function RunCoreDecisions(outcome: CallOutcome): (r: CoreDecisions)
    ensures outcome.Returned? && outcome.result.Decisions? ==> r == outcome.result.decisions
    ensures outcome.Returned? && outcome.result.OtherObject? ==> r == Fallback(NotStructuredMessage)
    ensures outcome.Raised? ==> r == Fallback(outcome.message)
  {
    match outcome
    case Returned(Decisions(decisions)) => decisions
    case Returned(OtherObject(_)) => Fallback(NotStructuredMessage)
    case Raised(message) => Fallback(message)
  }

  /**
   * A skill check without any roll fields is still a valid record: the
   * schema leaves all three optional, whatever the prompt asks for.
   */
  lemma SkillCheckFieldsNotEnforced(text: string)
    ensures MakeCoreDecisions(Some("skill_check"), None, None, None, Some(text)).Valid?
    ensures MakeCoreDecisions(Some("skill_check"), None, None, None, Some(text)).decisions.nextAction == SkillCheck
  {
  }

  /** The error text can be read back out of a fallback's response text. */
  function ErrorOf(responseText: string): (r: Option<string>)
  {
    if |responseText| >= |FallbackPrefix| + |FallbackSuffix|
       && responseText[..|FallbackPrefix|] == FallbackPrefix
       && responseText[|responseText| - |FallbackSuffix|..] == FallbackSuffix
    then Some(responseText[|FallbackPrefix|..|responseText| - |FallbackSuffix|])
    else None
  }

  lemma ErrorOfFallback(error: string)
    ensures ErrorOf(Fallback(error).responseText) == Some(error)
  {
    var t := Fallback(error).responseText;
    assert t[|t| - |FallbackSuffix|..] == FallbackSuffix;
  }

  /** A literal parses back to the decision type it names, and nothing else parses. */
  lemma ParseLiteral(t: DecisionType, s: string)
    ensures ParseDecisionType(t.Literal()) == Some(t)
    ensures ParseDecisionType(s).Some? <==> s == "skill_check" || s == "narrative_continues"
  {
  }

  /** Omitted roll fields default to none; the required fields are what was given. */
  lemma DefaultsAreNone(action: DecisionType, text: string)
    ensures MakeCoreDecisions(Some(action.Literal()), None, None, None, Some(text))
            == Valid(CoreDecisions(action, None, None, None, text))
  {
    ParseLiteral(action, action.Literal());
  }

  /**
   * Only the model's own answer can ask for a skill check: every skill check
   * that `run_core_decisions` returns is the call's result unchanged. Nothing
   * forces such a result to carry its roll fields.
   */
  lemma SkillCheckComesFromModel(outcome: CallOutcome)
    requires RunCoreDecisions(outcome).nextAction == SkillCheck
    ensures outcome == Returned(Decisions(RunCoreDecisions(outcome)))
  {
  }

  /** Every failed call yields a fallback whose error text can be recovered. */
  lemma FailedCallIsReported(outcome: CallOutcome)
    requires !(outcome.Returned? && outcome.result.Decisions?)
    ensures RunCoreDecisions(outcome).nextAction == NarrativeContinues
    ensures ErrorOf(RunCoreDecisions(outcome).responseText)
            == Some(if outcome.Raised? then outcome.message else NotStructuredMessage)
  {
    ErrorOfFallback(if outcome.Raised? then outcome.message else NotStructuredMessage);
  }
}
