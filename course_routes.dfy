/**
 * The course router: `POST /purchase` (behind the user guard) records an
 * entitlement after three checks, and `GET /preview` lists the catalog.
 */
module CourseRoutes {
  import opened Wrappers
  import opened Entities
  import opened Store

  const CourseIdRequired := "Course ID is required"
  const CourseNotFound := "Course not found"
  const AlreadyPurchased := "You have already purchased this course"
  const PurchaseSuccessful := "Course purchased successfully"
  const NoCoursesFound := "No courses found"
  const CoursesRetrieved := "Courses retrieved successfully"

  /**
   * What `POST /purchase` does to the tables and answers, for the user id the
   * guard bound and the body field `courseId` (None for any falsy value).
   * The checks run in a fixed order: missing id, then unknown course, then
   * duplicate pair; the first that fails decides the answer and nothing is
   * written. The ensures clauses state each outcome through the independent
   * predicates of the store, so the order shows in their guards: an unknown
   * course answers 404 whatever the purchases table holds.
   */
  function PurchaseStep(t: Tables, userId: Id, courseId: Option<Id>): (out: (Response, Tables))
    ensures courseId.None? ==> out == (Response(400, Message(CourseIdRequired)), t)
    ensures courseId.Some? && !CourseExists(t.courses, courseId.value) ==>
      out == (Response(404, Message(CourseNotFound)), t)
    ensures courseId.Some? && CourseExists(t.courses, courseId.value) && HasPair(t.purchases, userId, courseId.value) ==>
      out == (Response(400, Message(AlreadyPurchased)), t)
    ensures courseId.Some? && CourseExists(t.courses, courseId.value) && !HasPair(t.purchases, userId, courseId.value) ==>
      var p := Purchase(t.nextId, userId, courseId.value);
      out == (Response(201, PurchaseCreated(PurchaseSuccessful, p)),
              t.(purchases := t.purchases + [p], nextId := t.nextId + 1))
  {
    match courseId
    case None => (Response(400, Message(CourseIdRequired)), t)
    case Some(cid) =>
      if FindOne(t.courses, (c: Course) => c.id == cid).None? then
        (Response(404, Message(CourseNotFound)), t)
      else if FindOne(t.purchases, (p: Purchase) => p.userId == userId && p.courseId == cid).Some? then
        (Response(400, Message(AlreadyPurchased)), t)
      else
        var p := Purchase(t.nextId, userId, cid);
        (Response(201, PurchaseCreated(PurchaseSuccessful, p)),
         t.(purchases := t.purchases + [p], nextId := t.nextId + 1))
  }

  /** The `POST /purchase` handler on the live database. */
  method PostPurchase(db: Database, userId: Id, courseId: Option<Id>) returns (r: Response)
    requires db.Valid()
    modifies db
    ensures db.Valid()
    ensures (r, db.Snapshot()) == PurchaseStep(old(db.Snapshot()), userId, courseId)
  {
    ghost var before := db.Snapshot();
    PurchaseKeepsConsistent(before, userId, courseId);
    if courseId.None? {
      return Response(400, Message(CourseIdRequired));
    }
    var cid := courseId.value;
    var course := FindOne(db.courses, (c: Course) => c.id == cid);
    if course.None? {
      return Response(404, Message(CourseNotFound));
    }
    var existing := FindOne(db.purchases, (p: Purchase) => p.userId == userId && p.courseId == cid);
    if existing.Some? {
      return Response(400, Message(AlreadyPurchased));
    }
    var purchase := Purchase(db.nextId, userId, cid);
    db.purchases := db.purchases + [purchase];
    db.nextId := db.nextId + 1;
    r := Response(201, PurchaseCreated(PurchaseSuccessful, purchase));
  }

  /**
   * `GET /preview`: the whole catalog, or 404 when it is empty. A function of
   * the course table, so it changes no table.
   */
  function GetPreview(courses: seq<Course>): (r: Response)
    ensures r.status == 404 <==> courses == []
    ensures courses == [] ==> r.body == Message(NoCoursesFound)
    ensures courses != [] ==> r.status == 200 && r.body.CourseList? && r.body.courses == courses
  {
    if |courses| == 0 then Response(404, Message(NoCoursesFound))
    else Response(200, CourseList(CoursesRetrieved, courses))
  }

  /** A purchase call keeps the database consistent; in particular no (userId, courseId) pair is ever doubled. */
  lemma PurchaseKeepsConsistent(t: Tables, userId: Id, courseId: Option<Id>)
    requires Consistent(t)
    ensures Consistent(PurchaseStep(t, userId, courseId).1)
  {
  }

  /** Once a purchase has succeeded, repeating the same call answers 400 and writes nothing. */
  lemma RepeatPurchaseConflicts(t: Tables, userId: Id, courseId: Id)
    requires PurchaseStep(t, userId, Some(courseId)).0.status == 201
    ensures var t1 := PurchaseStep(t, userId, Some(courseId)).1;
      PurchaseStep(t1, userId, Some(courseId)) == (Response(400, Message(AlreadyPurchased)), t1)
  {
  }

  /** The statuses of `n` purchase calls for the same pair, made one after another, and the final tables. */
  ghost function PurchaseTimes(t: Tables, userId: Id, courseId: Id, n: nat): (seq<nat>, Tables)
    decreases n
  {
    if n == 0 then ([], t)
    else
      var (r, t1) := PurchaseStep(t, userId, Some(courseId));
      var (rest, t2) := PurchaseTimes(t1, userId, courseId, n - 1);
      ([r.status] + rest, t2)
  }

  lemma {:induction false} PurchaseTimesWhenOwned(t: Tables, userId: Id, courseId: Id, n: nat)
    requires CourseExists(t.courses, courseId) && HasPair(t.purchases, userId, courseId)
    ensures var (statuses, t') := PurchaseTimes(t, userId, courseId, n);
      |statuses| == n && (forall i :: 0 <= i < n ==> statuses[i] == 400) && t' == t
  {
    if n > 0 {
      PurchaseTimesWhenOwned(t, userId, courseId, n - 1);
    }
  }

  /**
   * Sequential form of the exactly-once guarantee: `n` calls for an existing
   * course from the same user yield at most one 201 (exactly one when the user
   * did not own the course), every later call answers 400, and the purchase
   * table ends with exactly one record for the pair.
   */
  lemma {:induction false} RepeatedPurchasesRecordOnce(t: Tables, userId: Id, courseId: Id, n: nat)
    requires Consistent(t) && CourseExists(t.courses, courseId) && n >= 1
    ensures var (statuses, t') := PurchaseTimes(t, userId, courseId, n);
      && |statuses| == n
      && (statuses[0] == 201 <==> !HasPair(t.purchases, userId, courseId))
      && (forall i :: 1 <= i < n ==> statuses[i] == 400)
      && PairCount(t'.purchases, userId, courseId) == 1
      && t'.users == t.users && t'.courses == t.courses
  {
    var (r, t1) := PurchaseStep(t, userId, Some(courseId));
    var p := Purchase(t.nextId, userId, courseId);
    if !HasPair(t.purchases, userId, courseId) {
      assert t1.purchases == t.purchases + [p];
      assert p in t1.purchases;
      PairCountPositive(t.purchases, userId, courseId);
      assert t1.purchases[..|t1.purchases| - 1] == t.purchases;
    } else {
      PairCountPositive(t.purchases, userId, courseId);
      PairCountAtMostOne(t.purchases, userId, courseId);
    }
    PurchaseTimesWhenOwned(t1, userId, courseId, n - 1);
  }
}
