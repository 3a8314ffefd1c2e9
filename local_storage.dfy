/** The on-device knowledge store and its spaced-repetition scheduler.

    The store keeps two collections, knowledge points and review schedules. Every
    operation of the service loads a collection, changes it and saves it back; here the
    two collections are fields of the service object and a save is an assignment.
    Time is an integer count of seconds, and a calendar day is a span of `DaySeconds`
    starting at a multiple of `DaySeconds`. */
module LocalStorage {
  import opened Wrappers
  import opened Sequences

  type Id = string
  type Instant = int

  const DaySeconds: int := 86400

  /** The ladder of review intervals, in days after the start of the activation day. */
  const ReviewIntervals: seq<int> := [1, 7, 16, 35]

  /** `Calendar.startOfDay(for:)`: the start of the day that contains `t`. */
  function StartOfDay(t: Instant): (d: Instant)
    ensures d <= t < d + DaySeconds
    ensures d % DaySeconds == 0
  {
    t - t % DaySeconds
  }

  /** The start of the day after the one that contains `now`. */
  function StartOfTomorrow(now: Instant): (d: Instant)
    ensures now < d <= now + DaySeconds
    ensures d % DaySeconds == 0
  {
    StartOfDay(now) + DaySeconds
  }

  datatype LocalKnowledgePoint = LocalKnowledgePoint(
    id: Id,
    question: string,
    answer: string,
    createdAt: Instant,
    updatedAt: Instant,
    isInReviewPlan: bool)

  datatype LocalReviewSchedule = LocalReviewSchedule(
    id: Id,
    knowledgePointId: Id,
    reviewNumber: int,
    reviewDate: Instant,
    completed: bool,
    completedAt: Option<Instant>,
    recallText: Option<string>)

  /** The backup payload: both collections. */
  datatype ExportData = ExportData(
    knowledgePoints: seq<LocalKnowledgePoint>,
    reviewSchedules: seq<LocalReviewSchedule>)

  datatype StorageStatistics = StorageStatistics(
    totalKnowledgePoints: int,
    pointsInReviewPlan: int,
    pendingReviewsToday: int,
    completedReviewsToday: int)

  /** What `getTodayReviews` returns: at most one schedule, and the number of due ones. */
  datatype TodayReviews = TodayReviews(reviews: seq<LocalReviewSchedule>, total: int)

  // Keys and predicates handed to the collection helpers.

  /** Sort key putting the most recently created point first. */
  function NewestFirst(p: LocalKnowledgePoint): int { -p.createdAt }

  /** Sort key putting the earliest review date first. */
  function EarliestFirst(s: LocalReviewSchedule): int { s.reviewDate }

  function PointId(p: LocalKnowledgePoint): Id { p.id }

  function ScheduleId(s: LocalReviewSchedule): Id { s.id }

  predicate InReviewPlan(p: LocalKnowledgePoint) { p.isInReviewPlan }

  function WithoutId(id: Id): LocalKnowledgePoint -> bool {
    (p: LocalKnowledgePoint) => p.id != id
  }

  function NotOwnedBy(pointId: Id): LocalReviewSchedule -> bool {
    (s: LocalReviewSchedule) => s.knowledgePointId != pointId
  }

  /** A schedule still to be reviewed whose day has come: not completed and dated before
      the start of tomorrow (overdue rows included). */
  predicate IsDue(s: LocalReviewSchedule, tomorrow: Instant) {
    !s.completed && s.reviewDate < tomorrow
  }

  function DueBefore(tomorrow: Instant): LocalReviewSchedule -> bool {
    (s: LocalReviewSchedule) => IsDue(s, tomorrow)
  }

  predicate CompletedWithin(s: LocalReviewSchedule, from: Instant, until: Instant) {
    s.completed && s.completedAt.Some? && from <= s.completedAt.value < until
  }

  function CompletedBetween(from: Instant, until: Instant): LocalReviewSchedule -> bool {
    (s: LocalReviewSchedule) => CompletedWithin(s, from, until)
  }

  /** The due rows in store order. */
  function DueRows(schedules: seq<LocalReviewSchedule>, tomorrow: Instant): seq<LocalReviewSchedule> {
    Filter(schedules, DueBefore(tomorrow))
  }

  /** The due rows, earliest review date first: the order a review session walks. */
  function DueQueue(schedules: seq<LocalReviewSchedule>, tomorrow: Instant): (q: seq<LocalReviewSchedule>)
    ensures multiset(q) == multiset(DueRows(schedules, tomorrow))
    ensures |q| == |DueRows(schedules, tomorrow)|
    ensures forall k :: 0 <= k < |q| ==> q[k] in schedules && IsDue(q[k], tomorrow)
    ensures forall s :: s in schedules && IsDue(s, tomorrow) ==> s in q
    ensures forall i, j :: 0 <= i < j < |q| ==> q[i].reviewDate <= q[j].reviewDate
  {
    var due := DueRows(schedules, tomorrow);
    var q := SortByKey(due, EarliestFirst);
    SortKeepsMembers(due, EarliestFirst);
    FilterMembers(schedules, DueBefore(tomorrow));
    assert forall k :: 0 <= k < |q| ==> q[k] in due by {
      forall k | 0 <= k < |q|
        ensures q[k] in due
      {
        assert q[k] in q;
      }
    }
    assert forall k :: 0 <= k < |q| ==> EarliestFirst(q[k]) == q[k].reviewDate;
    q
  }

  /** The `index`-th row of the ladder for `pointId` activated on the day starting at
      `today`, with the fresh identifier `ids[index]`. */
  function LadderRow(pointId: Id, today: Instant, ids: seq<Id>, index: nat): LocalReviewSchedule
    requires |ids| == |ReviewIntervals| && index < |ReviewIntervals|
  {
    LocalReviewSchedule(ids[index], pointId, index + 1,
                        today + ReviewIntervals[index] * DaySeconds, false, None, None)
  }

  /** The whole ladder of schedules for one point. */
  function Ladder(pointId: Id, today: Instant, ids: seq<Id>): seq<LocalReviewSchedule>
    requires |ids| == |ReviewIntervals|
  {
    seq(|ReviewIntervals|, index requires 0 <= index < |ReviewIntervals| => LadderRow(pointId, today, ids, index))
  }

  /** Schedule identifiers fresh for `schedules` and distinct from each other, as `UUID()`
      provides them. */
  predicate FreshScheduleIds(ids: seq<Id>, schedules: seq<LocalReviewSchedule>) {
    && |ids| == |ReviewIntervals|
    && (forall i, j :: 0 <= i < j < |ids| ==> ids[i] != ids[j])
    && (forall k, s :: 0 <= k < |ids| && s in schedules ==> s.id != ids[k])
  }

  /** The row as `completeReview` rewrites it. */
  function Completed(s: LocalReviewSchedule, now: Instant, recallText: Option<string>): LocalReviewSchedule {
    LocalReviewSchedule(s.id, s.knowledgePointId, s.reviewNumber, s.reviewDate, true, Some(now), recallText)
  }

  /** The knowledge store. `knowledgePoints` and `reviewSchedules` are the two persisted
      collections, in the order they were last saved. */
  class LocalStorageService {
    var knowledgePoints: seq<LocalKnowledgePoint>
    var reviewSchedules: seq<LocalReviewSchedule>

    /** A store with nothing saved yet. */
    constructor ()
      ensures knowledgePoints == [] && reviewSchedules == []
    {
      knowledgePoints := [];
      reviewSchedules := [];
    }

    /** All points, newest first. */
    function GetAllKnowledgePoints(): (r: seq<LocalKnowledgePoint>)
      reads this
      ensures multiset(r) == multiset(knowledgePoints)
      ensures forall i, j :: 0 <= i < j < |r| ==> r[i].createdAt >= r[j].createdAt
    {
      var r := SortByKey(knowledgePoints, NewestFirst);
      assert forall k :: 0 <= k < |r| ==> NewestFirst(r[k]) == -r[k].createdAt;
      r
    }

    /** One page of the newest-first list; an offset past the end gives an empty page.
        A negative offset is harmless only with a non-positive limit, whose page is empty;
        with a positive limit the app slices at the negative index and traps. */
    function GetKnowledgePoints(limit: int, offset: int): (r: seq<LocalKnowledgePoint>)
      reads this
      requires offset >= 0 || limit <= 0
      ensures |r| == if limit <= 0 || offset >= |knowledgePoints| then 0
                     else if limit < |knowledgePoints| - offset then limit
                     else |knowledgePoints| - offset
      ensures forall k :: 0 <= k < |r| ==> r[k] == GetAllKnowledgePoints()[offset + k]
    {
      var allPoints := GetAllKnowledgePoints();
      var startIndex := if offset < |allPoints| then offset else |allPoints|;
      var endIndex := if startIndex + limit < |allPoints| then startIndex + limit else |allPoints|;
      if startIndex >= endIndex then [] else allPoints[startIndex..endIndex]
    }

    /** The first point of the newest-first list with the given id, if any: a newest
        point with that id. */
    function GetKnowledgePoint(id: Id): (r: Option<LocalKnowledgePoint>)
      reads this
      ensures r.None? <==> forall p :: p in knowledgePoints ==> p.id != id
      ensures r.Some? ==> r.value in knowledgePoints && r.value.id == id
      ensures r.Some? ==> forall p :: p in knowledgePoints && p.id == id ==> p.createdAt <= r.value.createdAt
    {
      var allPoints := GetAllKnowledgePoints();
      SortKeepsMembers(knowledgePoints, NewestFirst);
      match FirstIndexOf(allPoints, PointId, id)
      case None => None
      case Some(i) =>
        FirstMatchIsNewest(allPoints, id);
        Some(allPoints[i])
    }

    /** The `offset`-th due schedule in review-date order, with the number of due ones. */
    function GetTodayReviews(now: Instant, offset: nat): (r: TodayReviews)
      reads this
      ensures r.total == |DueRows(reviewSchedules, StartOfTomorrow(now))|
      ensures |r.reviews| <= 1
      ensures r.reviews == [] <==> offset >= r.total
      ensures forall s :: s in r.reviews ==> s in reviewSchedules && IsDue(s, StartOfTomorrow(now))
      ensures r.reviews != [] ==> r.reviews[0] == DueQueue(reviewSchedules, StartOfTomorrow(now))[offset]
    {
      var todayReviews := DueQueue(reviewSchedules, StartOfTomorrow(now));
      var total := |todayReviews|;
      if offset >= |todayReviews| then TodayReviews([], total)
      else TodayReviews([todayReviews[offset]], total)
    }

    /** Counts over both collections. */
    function GetStatistics(now: Instant): (r: StorageStatistics)
      reads this
      ensures r.totalKnowledgePoints == |knowledgePoints|
      ensures r.pointsInReviewPlan == |Filter(knowledgePoints, InReviewPlan)|
      ensures 0 <= r.pointsInReviewPlan <= r.totalKnowledgePoints
      ensures r.pendingReviewsToday == GetTodayReviews(now, 0).total
      ensures r.completedReviewsToday
           == |Filter(reviewSchedules, CompletedBetween(StartOfDay(now), StartOfTomorrow(now)))|
      ensures r.pendingReviewsToday + r.completedReviewsToday <= |reviewSchedules|
    {
      var points := GetAllKnowledgePoints();
      var today := StartOfDay(now);
      var tomorrow := today + DaySeconds;
      assert tomorrow == StartOfTomorrow(now);
      assert |points| == |knowledgePoints|;
      FilterPermutation(points, knowledgePoints, InReviewPlan);
      FilterDisjoint(reviewSchedules, DueBefore(tomorrow), CompletedBetween(today, tomorrow));
      StorageStatistics(
        |points|,
        |Filter(points, InReviewPlan)|,
        |Filter(reviewSchedules, DueBefore(tomorrow))|,
        |Filter(reviewSchedules, CompletedBetween(today, tomorrow))|)
    }

    /** The backup payload. */
    function Export(): (r: ExportData)
      reads this
      ensures multiset(r.knowledgePoints) == multiset(knowledgePoints)
      ensures forall i, j :: 0 <= i < j < |r.knowledgePoints| ==>
        r.knowledgePoints[i].createdAt >= r.knowledgePoints[j].createdAt
      ensures r.reviewSchedules == reviewSchedules
    {
      ExportData(GetAllKnowledgePoints(), reviewSchedules)
    }

    /** Adds a point with the fresh id `id`, stamped `now`, in front of the newest-first
        list it re-saves; a point in the review plan also gets its ladder. */
    method CreateKnowledgePoint(question: string, answer: string, isInReviewPlan: bool,
                                id: Id, scheduleIds: seq<Id>, now: Instant)
      returns (newPoint: LocalKnowledgePoint)
      requires forall p :: p in knowledgePoints ==> p.id != id
      requires FreshScheduleIds(scheduleIds, reviewSchedules)
      modifies this
      ensures newPoint == LocalKnowledgePoint(id, question, answer, now, now, isInReviewPlan)
      ensures knowledgePoints == [newPoint] + old(GetAllKnowledgePoints())
      ensures reviewSchedules == old(reviewSchedules)
                                 + (if isInReviewPlan then Ladder(id, StartOfDay(now), scheduleIds) else [])
    {
      var points := GetAllKnowledgePoints();
      newPoint := LocalKnowledgePoint(id, question, answer, now, now, isInReviewPlan);
      points := [newPoint] + points;
      knowledgePoints := points;
      if isInReviewPlan {
        CreateReviewSchedules(newPoint, scheduleIds, now);
      }
    }

    /** Rewrites the first point (newest-first) with the id, keeping its id and creation
        time; a flag left unset keeps the old flag. A flag switched on appends a fresh
        ladder anchored at today, a flag switched off drops all of the point's schedules.
        An unknown id changes nothing and gives `None`. */
    method UpdateKnowledgePoint(id: Id, question: string, answer: string, isInReviewPlan: Option<bool>,
                                scheduleIds: seq<Id>, now: Instant)
      returns (r: Option<LocalKnowledgePoint>)
      requires FreshScheduleIds(scheduleIds, reviewSchedules)
      modifies this
      ensures r.None? <==> forall p :: p in old(knowledgePoints) ==> p.id != id
      ensures r.None? ==> knowledgePoints == old(knowledgePoints) && reviewSchedules == old(reviewSchedules)
      ensures r.Some? <==> FirstIndexOf(old(GetAllKnowledgePoints()), PointId, id).Some?
      ensures r.Some? ==>
        var i := FirstIndexOf(old(GetAllKnowledgePoints()), PointId, id).value;
        var oldPoint := old(GetAllKnowledgePoints())[i];
        var flag := isInReviewPlan.GetOr(oldPoint.isInReviewPlan);
        && r.value == LocalKnowledgePoint(id, question, answer, oldPoint.createdAt, now, flag)
        && knowledgePoints == old(GetAllKnowledgePoints())[i := r.value]
        && reviewSchedules == (if oldPoint.isInReviewPlan == flag then old(reviewSchedules)
                               else if flag then old(reviewSchedules) + Ladder(id, StartOfDay(now), scheduleIds)
                               else Filter(old(reviewSchedules), NotOwnedBy(id)))
    {
      var points := GetAllKnowledgePoints();
      SortKeepsMembers(knowledgePoints, NewestFirst);
      var found := FirstIndexOf(points, PointId, id);
      if found.None? {
        return None;
      }
      var index := found.value;
      var oldPoint := points[index];
      var newIsInReviewPlan := isInReviewPlan.GetOr(oldPoint.isInReviewPlan);
      var updatedPoint := LocalKnowledgePoint(oldPoint.id, question, answer, oldPoint.createdAt, now, newIsInReviewPlan);
      points := points[index := updatedPoint];
      knowledgePoints := points;
      if oldPoint.isInReviewPlan != newIsInReviewPlan {
        if newIsInReviewPlan {
          CreateReviewSchedules(updatedPoint, scheduleIds, now);
        } else {
          DeleteReviewSchedules(id);
        }
      }
      r := Some(updatedPoint);
    }

    /** Removes every point with the id and, in cascade, every schedule of that point.
        The remaining points are re-saved newest first. */
    method DeleteKnowledgePoint(id: Id)
      modifies this
      ensures knowledgePoints == Filter(old(GetAllKnowledgePoints()), WithoutId(id))
      ensures reviewSchedules == Filter(old(reviewSchedules), NotOwnedBy(id))
    {
      var points := GetAllKnowledgePoints();
      points := Filter(points, WithoutId(id));
      knowledgePoints := points;
      DeleteReviewSchedules(id);
    }

    /** Marks the first schedule with the id completed at `now` with the recall text as
        given; nothing else changes. There is no guard against completing twice: a
        second completion stamps the time again. An unknown id changes nothing. */
    method CompleteReview(id: Id, recallText: Option<string>, now: Instant)
      modifies this`reviewSchedules
      ensures FirstIndexOf(old(reviewSchedules), ScheduleId, id).None? ==> reviewSchedules == old(reviewSchedules)
      ensures FirstIndexOf(old(reviewSchedules), ScheduleId, id).Some? ==>
        var i := FirstIndexOf(old(reviewSchedules), ScheduleId, id).value;
        reviewSchedules == old(reviewSchedules)[i := Completed(old(reviewSchedules)[i], now, recallText)]
    {
      var schedules := reviewSchedules;
      var found := FirstIndexOf(schedules, ScheduleId, id);
      if found.Some? {
        var index := found.value;
        var oldSchedule := schedules[index];
        var completedSchedule := LocalReviewSchedule(
          oldSchedule.id, oldSchedule.knowledgePointId, oldSchedule.reviewNumber,
          oldSchedule.reviewDate, true, Some(now), recallText);
        schedules := schedules[index := completedSchedule];
        reviewSchedules := schedules;
      }
    }

    /** Appends one pending schedule per ladder interval for `point`, dated from the
        start of today. */
    method CreateReviewSchedules(point: LocalKnowledgePoint, ids: seq<Id>, now: Instant)
      requires |ids| == |ReviewIntervals|
      modifies this`reviewSchedules
      ensures reviewSchedules == old(reviewSchedules) + Ladder(point.id, StartOfDay(now), ids)
    {
      var schedules := reviewSchedules;
      var today := StartOfDay(now);
      var index := 0;
      while index < |ReviewIntervals|
        invariant 0 <= index <= |ReviewIntervals|
        invariant schedules == old(reviewSchedules) + Ladder(point.id, today, ids)[..index]
      {
        var reviewDate := today + ReviewIntervals[index] * DaySeconds;
        var schedule := LocalReviewSchedule(ids[index], point.id, index + 1, reviewDate, false, None, None);
        assert Ladder(point.id, today, ids)[..index + 1] == Ladder(point.id, today, ids)[..index] + [schedule];
        schedules := schedules + [schedule];
        index := index + 1;
      }
      assert Ladder(point.id, today, ids)[..index] == Ladder(point.id, today, ids);
      reviewSchedules := schedules;
    }

    /** Removes every schedule of the point. */
    method DeleteReviewSchedules(pointId: Id)
      modifies this`reviewSchedules
      ensures reviewSchedules == Filter(old(reviewSchedules), NotOwnedBy(pointId))
    {
      var schedules := reviewSchedules;
      schedules := Filter(schedules, NotOwnedBy(pointId));
      reviewSchedules := schedules;
    }

    /** Replaces both collections with a decoded payload; a payload that failed to
        decode (`None`) leaves both untouched and gives false. */
    method ImportData(payload: Option<ExportData>) returns (ok: bool)
      modifies this
      ensures ok <==> payload.Some?
      ensures ok ==> knowledgePoints == payload.value.knowledgePoints
                     && reviewSchedules == payload.value.reviewSchedules
      ensures !ok ==> knowledgePoints == old(knowledgePoints) && reviewSchedules == old(reviewSchedules)
    {
      if payload.None? {
        return false;
      }
      knowledgePoints := payload.value.knowledgePoints;
      reviewSchedules := payload.value.reviewSchedules;
      return true;
    }
  }

  /** In a newest-first listing, the first point with an id was created no earlier than
      any other point with that id. */
  lemma FirstMatchIsNewest(points: seq<LocalKnowledgePoint>, id: Id)
    requires forall i, j :: 0 <= i < j < |points| ==> points[i].createdAt >= points[j].createdAt
    requires FirstIndexOf(points, PointId, id).Some?
    ensures var first := points[FirstIndexOf(points, PointId, id).value];
      forall p :: p in points && p.id == id ==> p.createdAt <= first.createdAt
  {
    var i := FirstIndexOf(points, PointId, id).value;
    forall p | p in points && p.id == id
      ensures p.createdAt <= points[i].createdAt
    {
      var k :| 0 <= k < |points| && points[k] == p;
      assert PointId(points[k]) == id;
      assert i <= k;
    }
  }

  // Properties of the schedule ladder.

  /** A ladder has one row per interval, numbered 1..N in order, all pending and all for
      the point; its dates strictly increase and each lies the interval's number of whole
      days after the anchor day. */
  lemma LadderShape(pointId: Id, today: Instant, ids: seq<Id>)
    requires |ids| == |ReviewIntervals|
    ensures var ladder := Ladder(pointId, today, ids);
      && |ladder| == 4
      && (forall k :: 0 <= k < |ladder| ==>
            && ladder[k].knowledgePointId == pointId
            && ladder[k].id == ids[k]
            && ladder[k].reviewNumber == k + 1
            && ladder[k].reviewDate == today + ReviewIntervals[k] * DaySeconds
            && !ladder[k].completed && ladder[k].completedAt.None? && ladder[k].recallText.None?)
      && (forall i, j :: 0 <= i < j < |ladder| ==> ladder[i].reviewDate < ladder[j].reviewDate)
      && ladder[0].reviewDate == today + DaySeconds
      && ladder[3].reviewDate == today + 35 * DaySeconds
  {
  }

  /** A ladder created today holds nothing due today: creating or re-enabling a point
      never changes today's review queue. */
  lemma {:induction false} LadderNotDueToday(schedules: seq<LocalReviewSchedule>, pointId: Id, now: Instant, ids: seq<Id>)
    requires |ids| == |ReviewIntervals|
    ensures DueRows(schedules + Ladder(pointId, StartOfDay(now), ids), StartOfTomorrow(now))
         == DueRows(schedules, StartOfTomorrow(now))
  {
    var today := StartOfDay(now);
    var tomorrow := StartOfTomorrow(now);
    assert tomorrow == today + DaySeconds;
    var ladder := Ladder(pointId, today, ids);
    forall k | 0 <= k < |ladder|
      ensures !DueBefore(tomorrow)(ladder[k])
    {
      assert ladder[k].reviewDate == today + ReviewIntervals[k] * DaySeconds;
      assert ReviewIntervals[k] >= 1;
    }
    FilterAppend(schedules, ladder, DueBefore(tomorrow));
    FilterNone(ladder, DueBefore(tomorrow));
  }

  /** On the day after activation exactly the first row of a ladder is due, and it is
      review number 1. */
  lemma {:induction false} FirstReviewDueNextDay(pointId: Id, today: Instant, ids: seq<Id>)
    requires |ids| == |ReviewIntervals| && today % DaySeconds == 0
    ensures DueRows(Ladder(pointId, today, ids), StartOfTomorrow(today + DaySeconds))
         == [Ladder(pointId, today, ids)[0]]
    ensures Ladder(pointId, today, ids)[0].reviewNumber == 1
  {
    var ladder := Ladder(pointId, today, ids);
    var tomorrow := StartOfTomorrow(today + DaySeconds);
    assert StartOfDay(today + DaySeconds) == today + DaySeconds;
    assert tomorrow == today + 2 * DaySeconds;
    var later := ladder[1..];
    forall k | 0 <= k < |later|
      ensures !DueBefore(tomorrow)(later[k])
    {
      assert later[k] == LadderRow(pointId, today, ids, k + 1);
      assert ReviewIntervals[k + 1] >= 7;
    }
    assert ladder == [ladder[0]] + later;
    FilterAppend([ladder[0]], later, DueBefore(tomorrow));
    FilterNone(later, DueBefore(tomorrow));
  }

  // Properties of completion.

  /** Completing a row takes it out of today's queue: the number of due rows drops by
      one when the row was due and stays the same otherwise. */
  lemma CompletionShrinksDueRows(schedules: seq<LocalReviewSchedule>, i: nat, now: Instant,
                                 recallText: Option<string>, tomorrow: Instant)
    requires i < |schedules|
    ensures |DueRows(schedules[i := Completed(schedules[i], now, recallText)], tomorrow)|
         == |DueRows(schedules, tomorrow)| - (if IsDue(schedules[i], tomorrow) then 1 else 0)
  {
    FilterUpdate(schedules, i, Completed(schedules[i], now, recallText), DueBefore(tomorrow));
  }

  /** Completion keeps the row's identity, point, number and date; only the completion
      fields change, and a completed row is never due. */
  lemma CompletedKeepsIdentity(s: LocalReviewSchedule, now: Instant, recallText: Option<string>, tomorrow: Instant)
    ensures var c := Completed(s, now, recallText);
      && c.id == s.id && c.knowledgePointId == s.knowledgePointId
      && c.reviewNumber == s.reviewNumber && c.reviewDate == s.reviewDate
      && c.completed && c.completedAt == Some(now) && c.recallText == recallText
      && !IsDue(c, tomorrow)
  {
  }

  // Properties of deletion.

  /** After a cascade delete no row of the point is left, and every other row keeps its
      multiplicity. */
  lemma CascadeDeleteRemovesExactlyThePoint(schedules: seq<LocalReviewSchedule>, pointId: Id)
    ensures forall s :: s in Filter(schedules, NotOwnedBy(pointId)) ==> s.knowledgePointId != pointId
    ensures forall s: LocalReviewSchedule :: s.knowledgePointId != pointId
              ==> multiset(Filter(schedules, NotOwnedBy(pointId)))[s] == multiset(schedules)[s]
  {
    var r := Filter(schedules, NotOwnedBy(pointId));
    assert forall s :: s in r ==> s in multiset(r);
  }

  /** Deleting keeps the newest-first listing in order: the listing afterwards is the
      listing before with the id's points taken out. */
  lemma {:induction false} DeleteKeepsListingOrder(points: seq<LocalKnowledgePoint>, id: Id)
    ensures SortByKey(Filter(SortByKey(points, NewestFirst), WithoutId(id)), NewestFirst)
         == Filter(SortByKey(points, NewestFirst), WithoutId(id))
  {
    FilterSorted(SortByKey(points, NewestFirst), WithoutId(id), NewestFirst);
    SortOfSorted(Filter(SortByKey(points, NewestFirst), WithoutId(id)), NewestFirst);
  }

  /** Deleting an id nobody has changes nothing observable: the listing and the
      schedules stay as they were. */
  lemma {:induction false} DeleteAbsentIsNoOp(points: seq<LocalKnowledgePoint>, schedules: seq<LocalReviewSchedule>, id: Id)
    requires forall p :: p in points ==> p.id != id
    requires forall s :: s in schedules ==> s.knowledgePointId != id
    ensures SortByKey(Filter(SortByKey(points, NewestFirst), WithoutId(id)), NewestFirst)
         == SortByKey(points, NewestFirst)
    ensures Filter(schedules, NotOwnedBy(id)) == schedules
  {
    var sorted := SortByKey(points, NewestFirst);
    assert forall k :: 0 <= k < |sorted| ==> sorted[k] in multiset(points);
    FilterAll(sorted, WithoutId(id));
    SortIdempotent(points, NewestFirst);
    FilterAll(schedules, NotOwnedBy(id));
  }

  // Backup round trip.

  /** Importing the store's own export restores it: the listing and the schedules read
      back the same. */
  lemma {:induction false} ImportOfExportRestores(store: LocalStorageService)
    ensures SortByKey(store.Export().knowledgePoints, NewestFirst) == store.GetAllKnowledgePoints()
    ensures store.Export().reviewSchedules == store.reviewSchedules
  {
    SortIdempotent(store.knowledgePoints, NewestFirst);
  }
}
