/**
 * The three MongoDB collections as in-memory tables, the two query forms the
 * handlers use (`findOne` and `find` with a filter), and the consistency the
 * handlers keep when requests run one after another.
 */
module Store {
  import opened Wrappers
  import opened Entities

  /** The contents of the database: the users, courses and purchases collections and the id allocator. */
  datatype Tables = Tables(users: seq<User>, courses: seq<Course>, purchases: seq<Purchase>, nextId: Id)

  /** `Model.findOne(filter)`: the first document, in insertion order, that the filter matches. */
  function FindOne<T(==,!new)>(s: seq<T>, matches: T -> bool): (r: Option<T>)
    ensures r.Some? ==> r.value in s && matches(r.value)
    ensures r.Some? ==> exists i :: 0 <= i < |s| && s[i] == r.value && forall j :: 0 <= j < i ==> !matches(s[j])
    ensures r.None? <==> forall x :: x in s ==> !matches(x)
  {
    if s == [] then None
    else if matches(s[0]) then Some(s[0])
    else
      var r := FindOne(s[1..], matches);
      assert forall j :: 1 <= j < |s| ==> s[j] == s[1..][j - 1];
      r
  }

  /** `Model.find(filter)`: every document the filter matches, in insertion order. */
  function Find<T(==,!new)>(s: seq<T>, matches: T -> bool): (r: seq<T>)
    ensures |r| <= |s|
    ensures forall x :: x in r <==> x in s && matches(x)
    ensures r == [] <==> forall x :: x in s ==> !matches(x)
    ensures forall x :: multiset(r)[x] == if matches(x) then multiset(s)[x] else 0
  {
    if s == [] then []
    else
      var init, last := s[..|s| - 1], s[|s| - 1];
      assert s == init + [last];
      Find(init, matches) + (if matches(last) then [last] else [])
  }

  /** Some course has id `id`. */
  predicate CourseExists(courses: seq<Course>, id: Id) {
    exists c :: c in courses && c.id == id
  }

  /** Some purchase records that user `u` owns course `c`. */
  predicate HasPair(purchases: seq<Purchase>, u: Id, c: Id) {
    exists p :: p in purchases && p.userId == u && p.courseId == c
  }

  /** Some user has email `email`. */
  predicate EmailTaken(users: seq<User>, email: string) {
    exists u :: u in users && u.email == email
  }

  /** No two purchases share a (userId, courseId) pair. */
  predicate UniquePairs(ps: seq<Purchase>) {
    forall i, j :: 0 <= i < j < |ps| ==> ps[i].userId != ps[j].userId || ps[i].courseId != ps[j].courseId
  }

  /** No two users share an email. */
  predicate UniqueEmails(us: seq<User>) {
    forall i, j :: 0 <= i < j < |us| ==> us[i].email != us[j].email
  }

  /** The `_id` of every document is below the allocator and distinct within its collection. */
  predicate IdsFresh(t: Tables) {
    && (forall u :: u in t.users ==> u.id < t.nextId)
    && (forall c :: c in t.courses ==> c.id < t.nextId)
    && (forall p :: p in t.purchases ==> p.id < t.nextId)
    && (forall i, j :: 0 <= i < j < |t.users| ==> t.users[i].id != t.users[j].id)
    && (forall i, j :: 0 <= i < j < |t.courses| ==> t.courses[i].id != t.courses[j].id)
    && (forall i, j :: 0 <= i < j < |t.purchases| ==> t.purchases[i].id != t.purchases[j].id)
  }

  /** What holds of the database between requests, when requests are handled one at a time. */
  predicate Consistent(t: Tables) {
    IdsFresh(t) && UniqueEmails(t.users) && UniquePairs(t.purchases)
  }

  /** Number of purchase records for the pair (u, c). */
  function PairCount(ps: seq<Purchase>, u: Id, c: Id): nat {
    if ps == [] then 0
    else PairCount(ps[..|ps| - 1], u, c) + (if ps[|ps| - 1].userId == u && ps[|ps| - 1].courseId == c then 1 else 0)
  }

  lemma {:induction false} PairCountPositive(ps: seq<Purchase>, u: Id, c: Id)
    ensures PairCount(ps, u, c) > 0 <==> HasPair(ps, u, c)
  {
    if ps != [] {
      var init, last := ps[..|ps| - 1], ps[|ps| - 1];
      assert ps == init + [last];
      PairCountPositive(init, u, c);
    }
  }

  /** With unique pairs, the purchase table holds at most one record per (user, course). */
  lemma {:induction false} PairCountAtMostOne(ps: seq<Purchase>, u: Id, c: Id)
    requires UniquePairs(ps)
    ensures PairCount(ps, u, c) <= 1
  {
    if ps != [] {
      var init, last := ps[..|ps| - 1], ps[|ps| - 1];
      assert ps == init + [last];
      PairCountAtMostOne(init, u, c);
      if last.userId == u && last.courseId == c {
        PairCountPositive(init, u, c);
      }
    }
  }

  /** The database connection: the collections the handlers read and write. */
  class Database {
    var users: seq<User>
    var courses: seq<Course>
    var purchases: seq<Purchase>
    var nextId: Id

    /** The current contents as a value. */
    function Snapshot(): Tables
      reads this
    {
      Tables(users, courses, purchases, nextId)
    }

    predicate Valid()
      reads this
    {
      Consistent(Snapshot())
    }

    constructor (initial: Tables)
      requires Consistent(initial)
      ensures Valid() && Snapshot() == initial
    {
      users, courses, purchases, nextId := initial.users, initial.courses, initial.purchases, initial.nextId;
    }
  }
}
