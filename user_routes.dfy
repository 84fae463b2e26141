/**
 * The user router: `POST /signup` creates an account, `POST /signin` checks
 * credentials and issues a token, and `GET /purchases` (behind the user
 * guard) joins the caller's purchases to the catalog.
 */
module UserRoutes {
  import opened Wrappers
  import opened Entities
  import opened Store
  import CourseRoutes

  const UserExists := "User with this email already exists"
  const AllFieldsRequired := "All fields are required"
  const SignupSuccessful := "Signup successful"
  const CredentialsRequired := "Email and password are required"
  const SigninSuccessful := "Signin successful"
  const InvalidCredentials := "Invalid email or password"
  const PurchasesRetrieved := "Purchases retrieved successfully"

  /**
   * What `POST /signup` does to the tables and answers. A body field that is
   * absent or empty is the empty string. The duplicate-email lookup runs
   * before the required-field check, so a taken email answers "already
   * exists" even when other fields are missing.
   */
  function SignupStep(t: Tables, email: string, password: string, firstName: string, lastName: string)
    : (out: (Response, Tables))
    ensures EmailTaken(t.users, email) ==> out == (Response(400, Message(UserExists)), t)
    ensures !EmailTaken(t.users, email) && (email == "" || password == "" || firstName == "" || lastName == "") ==>
      out == (Response(400, Message(AllFieldsRequired)), t)
    ensures !EmailTaken(t.users, email) && email != "" && password != "" && firstName != "" && lastName != "" ==>
      var u := User(t.nextId, email, password, firstName, lastName);
      out == (Response(201, SignupOk(SignupSuccessful, UserSummary(t.nextId, email, firstName, lastName))),
              t.(users := t.users + [u], nextId := t.nextId + 1))
  {
    if FindOne(t.users, (u: User) => u.email == email).Some? then
      (Response(400, Message(UserExists)), t)
    else if email == "" || password == "" || firstName == "" || lastName == "" then
      (Response(400, Message(AllFieldsRequired)), t)
    else
      var user := User(t.nextId, email, password, firstName, lastName);
      (Response(201, SignupOk(SignupSuccessful, Summary(user))),
       t.(users := t.users + [user], nextId := t.nextId + 1))
  }

  /** The `POST /signup` handler on the live database. */
  method PostSignup(db: Database, email: string, password: string, firstName: string, lastName: string)
    returns (r: Response)
    requires db.Valid()
    modifies db
    ensures db.Valid()
    ensures (r, db.Snapshot()) == SignupStep(old(db.Snapshot()), email, password, firstName, lastName)
  {
    SignupKeepsConsistent(db.Snapshot(), email, password, firstName, lastName);
    var existing := FindOne(db.users, (u: User) => u.email == email);
    if existing.Some? {
      return Response(400, Message(UserExists));
    }
    if email == "" || password == "" || firstName == "" || lastName == "" {
      return Response(400, Message(AllFieldsRequired));
    }
    var user := User(db.nextId, email, password, firstName, lastName);
    db.users := db.users + [user];
    db.nextId := db.nextId + 1;
    r := Response(201, SignupOk(SignupSuccessful, Summary(user)));
  }

  /** A stored user with exactly these credentials. */
  predicate Matches(u: User, email: string, password: string) {
    u.email == email && u.password == password
  }

  /**
   * `POST /signin`: 400 when a credential is missing; otherwise 200 with a
   * token for the first stored user whose email and password both match, or
   * 401 with one message whether the account is missing or the password is
   * wrong. A function of the user table, so it changes no table.
   */
  function PostSignin(users: seq<User>, email: string, password: string): (r: Response)
    ensures email == "" || password == "" ==> r == Response(400, Message(CredentialsRequired))
    ensures email != "" && password != "" ==>
      (r.status == 200 <==> exists u :: u in users && Matches(u, email, password))
    ensures r.status == 200 ==>
      exists u :: u in users && Matches(u, email, password) &&
        r == Response(200, SigninOk(SigninSuccessful, UserToken(u.id), Summary(u)))
    ensures email != "" && password != "" && r.status != 200 ==> r == Response(401, Message(InvalidCredentials))
  {
    if email == "" || password == "" then
      Response(400, Message(CredentialsRequired))
    else
      match FindOne(users, (u: User) => Matches(u, email, password))
      case Some(user) => Response(200, SigninOk(SigninSuccessful, UserToken(user.id), Summary(user)))
      case None => Response(401, Message(InvalidCredentials))
  }

  /** `purchases.map(p => p.courseId)`. */
  function CourseIds(ps: seq<Purchase>): seq<Id> {
    seq(|ps|, i requires 0 <= i < |ps| => ps[i].courseId)
  }

  /**
   * `GET /purchases`: the caller's purchase records and the courses whose id
   * one of them names. A user without purchases gets two empty lists and
   * status 200, not an error. A function of the tables, so it changes none.
   */
  function GetPurchases(t: Tables, userId: Id): (r: Response)
    ensures r.status == 200 && r.body.PurchaseList?
    ensures forall p :: p in r.body.purchases <==> p in t.purchases && p.userId == userId
    ensures forall c :: c in r.body.coursesData <==> c in t.courses && HasPair(t.purchases, userId, c.id)
    ensures (forall p :: p in t.purchases ==> p.userId != userId) ==> r.body.purchases == [] && r.body.coursesData == []
    ensures forall p :: multiset(r.body.purchases)[p] == if p.userId == userId then multiset(t.purchases)[p] else 0
    ensures forall c :: multiset(r.body.coursesData)[c] == if HasPair(t.purchases, userId, c.id) then multiset(t.courses)[c] else 0
  {
    var purchases := Find(t.purchases, (p: Purchase) => p.userId == userId);
    var ids := CourseIds(purchases);
    var coursesData := Find(t.courses, (c: Course) => c.id in ids);
    CourseIdsNamePairs(t, userId, purchases);
    Response(200, PurchaseList(PurchasesRetrieved, purchases, coursesData))
  }

  /** A course id is among those the caller's purchase records name exactly when the caller owns that course. */
  lemma CourseIdsNamePairs(t: Tables, userId: Id, purchases: seq<Purchase>)
    requires forall p :: p in purchases <==> p in t.purchases && p.userId == userId
    ensures forall id :: id in CourseIds(purchases) <==> HasPair(t.purchases, userId, id)
  {
    var ids := CourseIds(purchases);
    forall id ensures id in ids <==> HasPair(t.purchases, userId, id) {
      if id in ids {
        var i :| 0 <= i < |ids| && ids[i] == id;
        assert purchases[i] in purchases;
      }
      if HasPair(t.purchases, userId, id) {
        var p :| p in t.purchases && p.userId == userId && p.courseId == id;
        var i :| 0 <= i < |purchases| && purchases[i] == p;
        assert ids[i] == id;
      }
    }
  }

  /** A signup call keeps the database consistent; in particular no two users ever share an email. */
  lemma SignupKeepsConsistent(t: Tables, email: string, password: string, firstName: string, lastName: string)
    requires Consistent(t)
    ensures Consistent(SignupStep(t, email, password, firstName, lastName).1)
  {
  }

  /** After a successful signup, a second signup with the same email answers 400 and creates nobody, whatever its other fields. */
  lemma SecondSignupConflicts(t: Tables, email: string, password: string, firstName: string, lastName: string,
                              password2: string, firstName2: string, lastName2: string)
    requires SignupStep(t, email, password, firstName, lastName).0.status == 201
    ensures var t1 := SignupStep(t, email, password, firstName, lastName).1;
      SignupStep(t1, email, password2, firstName2, lastName2) == (Response(400, Message(UserExists)), t1)
  {
  }

  /** Signing in with the credentials just registered returns a token for the new account and its summary. */
  lemma SigninAfterSignup(t: Tables, email: string, password: string, firstName: string, lastName: string)
    requires SignupStep(t, email, password, firstName, lastName).0.status == 201
    ensures var t1 := SignupStep(t, email, password, firstName, lastName).1;
      PostSignin(t1.users, email, password)
        == Response(200, SigninOk(SigninSuccessful, UserToken(t.nextId), UserSummary(t.nextId, email, firstName, lastName)))
  {
    var t1 := SignupStep(t, email, password, firstName, lastName).1;
    var u := User(t.nextId, email, password, firstName, lastName);
    assert t1.users == t.users + [u];
    assert u in t1.users;
    var r := PostSignin(t1.users, email, password);
    var w :| w in t1.users && Matches(w, email, password) &&
      r == Response(200, SigninOk(SigninSuccessful, UserToken(w.id), Summary(w)));
  }

  /**
   * With unique emails, a successful signin identifies the one account with
   * that email: the token's subject is that account's id.
   */
  lemma SigninIdentifiesAccount(users: seq<User>, email: string, password: string, u: User)
    requires UniqueEmails(users) && u in users && u.email == email
    requires PostSignin(users, email, password).status == 200
    ensures PostSignin(users, email, password).body.token == UserToken(u.id)
    ensures u.password == password
  {
  }

  /** After a successful purchase, the buyer's purchase listing includes the bought course and the new record. */
  lemma PurchaseThenListed(t: Tables, userId: Id, courseId: Id, course: Course)
    requires course in t.courses && course.id == courseId
    requires CourseRoutes.PurchaseStep(t, userId, Some(courseId)).0.status == 201
    ensures var (r, t1) := CourseRoutes.PurchaseStep(t, userId, Some(courseId));
      var listing := GetPurchases(t1, userId).body;
      course in listing.coursesData && r.body.purchase in listing.purchases
  {
  }
}
