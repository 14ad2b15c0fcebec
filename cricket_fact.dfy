/**
 * The cricket-fact flow around the AI call: the fixed pool of fallback facts,
 * how many of them are served, and when the AI's facts are served instead.
 */
module CricketFact {

  datatype Category = Player | Team | Record | Historical | Rules | Tournament
  datatype Difficulty = Easy | Medium | Hard
  datatype Fact = Fact(fact: string, category: Category, difficulty: Difficulty)
  datatype Source = Ai | Fallback
  datatype FactsOutput = FactsOutput(facts: seq<Fact>, source: Source)

  const FallbackPool: seq<Fact> := [
    Fact("Sachin Tendulkar is the highest run-scorer in Test cricket with 15,921 runs.", Player, Easy),
    Fact("The first Test match was played between Australia and England in 1877.", Historical, Medium),
    Fact("Chris Gayle holds the record for highest individual score in T20I with 175*.", Record, Medium),
    Fact("India won its first Cricket World Cup in 1983 under Kapil Dev.", Tournament, Easy),
    Fact("A cricket ball must weigh between 155.9 and 163 grams.", Rules, Hard)
  ]

  /** The input schema: `count` is 1 to 10. */
  predicate ValidCount(count: int) { 1 <= count <= 10 }

  /** `Math.min(a, b)`. */
  function Min(a: int, b: int): int { if a <= b then a else b }

  /** `slice(0, end)`: a negative end counts back from the length. */
  function SliceEnd(end: int, length: nat): (k: nat)
    ensures k <= length
    ensures 0 <= end <= length ==> k == end
  {
    if end < 0 then (if length + end < 0 then 0 else length + end)
    else if end > length then length
    else end
  }

  /** `getFallbackFacts(count)`. */
  function FallbackFacts(count: int): (out: FactsOutput)
    ensures out.source == Fallback
    ensures |out.facts| <= |FallbackPool| && out.facts == FallbackPool[..|out.facts|]
    ensures 0 <= count ==> |out.facts| == Min(count, |FallbackPool|)
  {
    FactsOutput(FallbackPool[..SliceEnd(Min(count, |FallbackPool|), |FallbackPool|)], Fallback)
  }

  /** A valid count is always served at least one fallback fact, at most five. */
  lemma ValidCountGetsFacts(count: int)
    requires ValidCount(count)
    ensures 1 <= |FallbackFacts(count).facts| <= 5
  {
  }

  /**
   * `slice` with a negative count drops that many facts from the end of the
   * pool, and a count below minus the pool size leaves none.
   */
  lemma NegativeCountCountsBack(count: int)
    requires count < 0
    ensures -count <= |FallbackPool| ==> FallbackFacts(count).facts == FallbackPool[..|FallbackPool| + count]
    ensures -count > |FallbackPool| ==> FallbackFacts(count).facts == []
  {
  }

  /** Every fallback fact meets the output schema's ten-character minimum. */
  lemma FallbackMeetsSchema()
    ensures forall i :: 0 <= i < |FallbackPool| ==> |FallbackPool[i].fact| >= 10
  {
    assert |FallbackPool[0].fact| >= 10 && |FallbackPool[1].fact| >= 10 && |FallbackPool[2].fact| >= 10;
    assert |FallbackPool[3].fact| >= 10 && |FallbackPool[4].fact| >= 10;
  }

  /** What the prompt call gives: it throws, or its output fails validation, or it passes with these facts. */
  datatype AiAnswer = AiError | FailsValidation | Validated(facts: seq<Fact>)

  /** `generateCricketFactsFlow`: the validated facts tagged `ai`, else the fallback. */
  function Flow(count: int, answer: AiAnswer): (out: FactsOutput)
    ensures out.source == Ai <==> answer.Validated?
    ensures answer.Validated? ==> out.facts == answer.facts
    ensures !answer.Validated? ==> out == FallbackFacts(count)
  {
    match answer
    case Validated(facts) => FactsOutput(facts, Ai)
    case _ => FallbackFacts(count)
  }

  /**
   * `generateCricketFacts`: the flow's only throw is its input-schema check,
   * which rejects a count outside 1..10 before the body runs; the wrapper
   * answers that throw with the fallback for the same count.
   */
  function GenerateCricketFacts(count: int, answer: AiAnswer): (out: FactsOutput)
    ensures out.source == Ai <==> ValidCount(count) && answer.Validated?
    ensures out.source == Ai ==> out.facts == answer.facts
    ensures out.source == Fallback ==> out == FallbackFacts(count)
    ensures !ValidCount(count) ==> out == FallbackFacts(count)
  {
    if !ValidCount(count) then FallbackFacts(count) else Flow(count, answer)
  }

  /** A rejected count still gets facts when it is above ten (all five), and none when it is below one and not negative. */
  lemma RejectedCountFallsBack(count: int, answer: AiAnswer)
    requires !ValidCount(count)
    ensures count > 10 ==> GenerateCricketFacts(count, answer).facts == FallbackPool
    ensures 0 <= count < 1 ==> GenerateCricketFacts(count, answer).facts == []
  {
    assert FallbackPool[..|FallbackPool|] == FallbackPool;
  }
}
