/** Display projections of the stored records, as the views receive them.

    The projections copy fields. Dates keep the instant they would be formatted from:
    the text rendering of an instant is not part of this model. */
module Models {
  import opened Wrappers
  import opened LocalStorage

  /** A knowledge point as displayed. */
  datatype KnowledgePoint = KnowledgePoint(
    id: Id,
    question: string,
    answer: string,
    createdAt: Instant,
    updatedAt: Instant,
    isInReviewPlan: bool)

  /** The question and answer of a schedule's parent point. */
  datatype KnowledgePointInfo = KnowledgePointInfo(question: string, answer: string)

  /** A review schedule as displayed, joined with its parent point. */
  datatype ReviewSchedule = ReviewSchedule(
    id: Id,
    knowledgePointId: Id,
    reviewNumber: int,
    reviewDate: Instant,
    completed: bool,
    completedAt: Option<Instant>,
    recallText: Option<string>,
    knowledgePoints: KnowledgePointInfo)

  /** `KnowledgePoint.init(from:)`: the displayed form of a stored point. */
  function KnowledgePointFrom(local: LocalKnowledgePoint): (r: KnowledgePoint)
    ensures r.id == local.id && r.question == local.question && r.answer == local.answer
    ensures r.isInReviewPlan == local.isInReviewPlan
    ensures r.createdAt == local.createdAt && r.updatedAt == local.updatedAt
  {
    KnowledgePoint(local.id, local.question, local.answer, local.createdAt, local.updatedAt, local.isInReviewPlan)
  }

  /** `ReviewSchedule.init(from:knowledgePoint:)`: the displayed form of a stored schedule
      joined with its parent point, with empty question and answer when there is none. */
  function ReviewScheduleFrom(local: LocalReviewSchedule, knowledgePoint: Option<LocalKnowledgePoint>): (r: ReviewSchedule)
    ensures r.id == local.id && r.knowledgePointId == local.knowledgePointId
    ensures r.reviewNumber == local.reviewNumber && r.reviewDate == local.reviewDate
    ensures r.completed == local.completed && r.recallText == local.recallText
    ensures r.completedAt == local.completedAt
    ensures knowledgePoint.Some? ==> r.knowledgePoints.question == knowledgePoint.value.question
                                     && r.knowledgePoints.answer == knowledgePoint.value.answer
    ensures knowledgePoint.None? ==> r.knowledgePoints == KnowledgePointInfo("", "")
  {
    var question := match knowledgePoint case Some(p) => p.question case None => "";
    var answer := match knowledgePoint case Some(p) => p.answer case None => "";
    ReviewSchedule(local.id, local.knowledgePointId, local.reviewNumber, local.reviewDate,
                   local.completed, local.completedAt, local.recallText,
                   KnowledgePointInfo(question, answer))
  }

  /** Joining a schedule with its parent as the store looks it up never fails, and the
      nested question and answer are the parent's exactly when the store holds a point
      with that id. */
  lemma JoinWithStore(store: LocalStorageService, local: LocalReviewSchedule)
    ensures var r := ReviewScheduleFrom(local, store.GetKnowledgePoint(local.knowledgePointId));
      && r.id == local.id
      && ((forall p :: p in store.knowledgePoints ==> p.id != local.knowledgePointId)
            ==> r.knowledgePoints == KnowledgePointInfo("", ""))
      && (store.GetKnowledgePoint(local.knowledgePointId).Some? ==>
            exists p :: p in store.knowledgePoints && p.id == local.knowledgePointId
                        && r.knowledgePoints == KnowledgePointInfo(p.question, p.answer))
  {
    var found := store.GetKnowledgePoint(local.knowledgePointId);
    if found.Some? {
      var p := found.value;
      assert p in store.knowledgePoints && p.id == local.knowledgePointId;
    }
  }
}
