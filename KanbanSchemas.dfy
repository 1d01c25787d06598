/** The kanban input schemas as predicates over already-typed values: zod's
    type checks (string, number) are taken as given, and `.min`/`.max` on a
    string bound its length in UTF-16 code units. */
module KanbanSchemas {
  import opened JsText

  /** `z.number().int()` */
  predicate IsInteger(x: real) { x == x.Floor as real }

  predicate NonEmpty(s: string) { JsLength(s) >= 1 }

  /** createCardSchema */
  predicate ValidCreateCard(columnId: string, name: string, specification: string, objective: string,
                            acceptanceCriteria: string, estimatedHours: real) {
    NonEmpty(columnId) && 1 <= JsLength(name) <= 100 && NonEmpty(specification) && NonEmpty(objective)
    && NonEmpty(acceptanceCriteria) && IsInteger(estimatedHours) && 1.0 <= estimatedHours <= 24.0
  }

  /** moveCardSchema: the target position is any number. */
  predicate ValidMoveCard(cardId: string, targetColumnId: string, targetPosition: real) {
    NonEmpty(cardId) && NonEmpty(targetColumnId)
  }

  /** toggleIsNextSchema */
  predicate ValidToggleIsNext(cardId: string, boardId: string) {
    NonEmpty(cardId) && NonEmpty(boardId)
  }

  /** generateCardsSchema */
  predicate ValidGenerateCards(featureDescription: string, boardId: string) {
    10 <= JsLength(featureDescription) <= 2000 && NonEmpty(boardId)
  }

  /** updateBoardTeamSizeSchema */
  predicate ValidUpdateBoardTeamSize(boardId: string, teamSize: real) {
    NonEmpty(boardId) && IsInteger(teamSize) && 1.0 <= teamSize <= 20.0
  }

  /** An accepted estimate is a whole number of hours between 1 and 24. */
  lemma CreateCardHoursAreWhole(columnId: string, name: string, specification: string, objective: string,
                                acceptanceCriteria: string, estimatedHours: real)
    requires ValidCreateCard(columnId, name, specification, objective, acceptanceCriteria, estimatedHours)
    ensures var h := estimatedHours.Floor; 1 <= h <= 24 && h as real == estimatedHours
  {
  }

  /** Every whole number of hours from 1 to 24 is accepted, and a fractional
      estimate never is. */
  lemma CreateCardHoursExactly(columnId: string, name: string, specification: string, objective: string,
                               acceptanceCriteria: string, hours: int, fraction: real)
    requires NonEmpty(columnId) && 1 <= JsLength(name) <= 100 && NonEmpty(specification) && NonEmpty(objective)
    requires NonEmpty(acceptanceCriteria)
    requires 0.0 < fraction < 1.0
    ensures ValidCreateCard(columnId, name, specification, objective, acceptanceCriteria, hours as real) <==> 1 <= hours <= 24
    ensures !ValidCreateCard(columnId, name, specification, objective, acceptanceCriteria, hours as real + fraction)
  {
    assert (hours as real + fraction).Floor == hours;
  }

  /** The move schema constrains neither the sign nor the integrality of the
      target position. */
  lemma MoveCardAcceptsAnyPosition(cardId: string, targetColumnId: string, targetPosition: real)
    requires NonEmpty(cardId) && NonEmpty(targetColumnId)
    ensures ValidMoveCard(cardId, targetColumnId, targetPosition)
    ensures ValidMoveCard(cardId, targetColumnId, -1.0 / 2.0)
  {
  }

  /** A team size is accepted exactly when it is a whole number from 1 to 20. */
  lemma TeamSizeExactly(boardId: string, size: int, fraction: real)
    requires NonEmpty(boardId)
    requires 0.0 < fraction < 1.0
    ensures ValidUpdateBoardTeamSize(boardId, size as real) <==> 1 <= size <= 20
    ensures !ValidUpdateBoardTeamSize(boardId, size as real + fraction)
  {
    assert (size as real + fraction).Floor == size;
  }

  /** With a board id, a feature description is accepted exactly when it is 10
      to 2000 UTF-16 code units long. Counted in characters, fewer than five is
      always too short and more than 2000 always too long, while five to nine
      characters outside the Basic Multilingual Plane are long enough, and more
      than 1000 of them are too many. */
  lemma FeatureDescriptionBounds(featureDescription: string, boardId: string)
    ensures NonEmpty(boardId) ==>
      (ValidGenerateCards(featureDescription, boardId) <==> 10 <= JsLength(featureDescription) <= 2000)
    ensures JsLength(featureDescription) < 10 || JsLength(featureDescription) > 2000 ==>
      !ValidGenerateCards(featureDescription, boardId)
    ensures |featureDescription| < 5 || |featureDescription| > 2000 ==> !ValidGenerateCards(featureDescription, boardId)
    ensures NonEmpty(boardId) && AllAstral(featureDescription) && 5 <= |featureDescription| <= 1000 ==>
      ValidGenerateCards(featureDescription, boardId)
    ensures AllAstral(featureDescription) && |featureDescription| > 1000 ==> !ValidGenerateCards(featureDescription, boardId)
  {
  }
}
