# Course-selling app: purchase ledger, identity store and client auth state

A Dafny model of the core of a course-selling web application, in two parts.

The backend is an Express API over three MongoDB collections: users, courses and purchases.
- `POST /course/purchase` records that a signed-in user owns a course. It runs three guarded
  checks first: a course id is given, the course exists, and the user does not own it already.
- `GET /course/preview` lists the catalog.
- `POST /user/signup` creates an account. It checks for a taken email first, then for missing fields.
- `POST /user/signin` matches email and password exactly and issues a bearer token.
- `GET /user/purchases` joins the caller's purchase records to the catalog.

The client is a React context, `AuthProvider`. It holds `user`, `token` and `isAdmin` and
mirrors the token and the admin flag into the browser's `localStorage`.

Modules:
- `Wrappers` (`wrappers.dfy`): Option and Result.
- `Entities` (`entities.dfy`): the stored records, the opaque token and the HTTP response.
- `Store` (`store.dfy`):
  - the collections as a `Tables` value, and the `Database` class whose fields the handlers reassign;
  - the two query forms, `findOne` (`FindOne`) and `find` (`Find`);
  - the consistency the handlers keep: fresh, distinct ids, unique emails and unique (userId, courseId) pairs.
- `CourseRoutes` (`course_routes.dfy`) and `UserRoutes` (`user_routes.dfy`): one member per handler.
  - A handler that writes is a pure step function over `Tables`, which is its specification, and a
    method on `Database`. The method's postcondition ties its response and the new contents to the
    step applied to the old contents.
  - A handler that only reads is a function of the tables.
- `AuthContext` (`auth_context.dfy`): the provider as a class with a `map` field for storage,
  specified by the pure transitions `LoginState` and `LogoutState`.

Modelling choices:
- ObjectIds are serial numbers taken from a counter in the tables. The one property the model
  needs is that a new id is fresh.
- A request body field that is absent or empty is the empty string. For `courseId` it is `None`.
  The handlers' `!x` test treats both the same way.
- The user guard in front of `/purchase` and `/purchases` is modelled as its outcome: an
  already-resolved `userId` parameter.
- A JSON Web Token signed with the user secret is the constructor `UserToken(id)`: opaque and
  injective in the subject id.

The model follows the code, which:
- answers 400 to a duplicate purchase, not a distinct conflict status;
- checks for a taken email at signup before it checks that the fields are present;
- answers 404 from `/preview` when the catalog is empty.

## Model

| member | source | states |
|---|---|---|
| `Store.FindOne` | course_selling_Api/routes/course.js:28-31 | `findOne`: a returned document is in the collection and matches, and no earlier document matches; `None` exactly when no document matches |
| `Store.Find` | course_selling_Api/routes/user.js:100-108 | `find`: each matching document appears in the result exactly as often as in the collection, and no other document appears; the result is empty iff nothing matches |
| `Store.PairCountPositive` | course_selling_Api/routes/course.js:28-33 | the number of records for a (user, course) pair is positive iff `findOne({userId, courseId})` would find one |
| `Store.PairCountAtMostOne` | course_selling_Api/routes/course.js:28-42 | when no pair is doubled, each (user, course) pair has at most one purchase record |
| `Store.Database.constructor` | course_selling_Api/index.js:22 | the connection starts on consistent existing contents and exposes exactly those |
| `CourseRoutes.PurchaseStep` | course_selling_Api/routes/course.js:7-47 | missing id: 400 "Course ID is required", tables unchanged. Unknown course: 404 whatever the purchases hold. Course owned already: 400 "already purchased", nothing added. Otherwise: 201, and exactly one record `(fresh id, userId, courseId)` is appended, which the body returns. Users, courses and earlier records are untouched. The guards encode the check order |
| `CourseRoutes.PostPurchase` | course_selling_Api/routes/course.js:7-47 | the handler's response and the new database contents are `PurchaseStep` of the old contents, and the database stays consistent |
| `CourseRoutes.GetPreview` | course_selling_Api/routes/course.js:56-69 | 404 "No courses found" iff the catalog is empty; otherwise 200 with exactly the full course table; it writes nothing |
| `CourseRoutes.PurchaseKeepsConsistent` | course_selling_Api/routes/course.js:28-42 | every purchase call keeps the tables consistent: no (userId, courseId) pair is doubled, ids stay fresh and distinct |
| `CourseRoutes.RepeatPurchaseConflicts` | course_selling_Api/routes/course.js:28-37 | right after a successful purchase, the same call answers 400 "already purchased" and changes nothing |
| `CourseRoutes.PurchaseTimesWhenOwned` | course_selling_Api/routes/course.js:28-37 | once a user owns an existing course, any number of further purchase calls all answer 400 and leave the tables as they were |
| `CourseRoutes.RepeatedPurchasesRecordOnce` | course_selling_Api/routes/course.js:20-47 | `n` purchase calls in a row for one existing course: the first answers 201 iff the user did not own it, every later call answers 400, the pair ends with exactly one record, and users and courses are unchanged |
| `UserRoutes.SignupStep` | course_selling_Api/routes/user.js:9-43 | taken email: 400 "already exists" and no user created, even when other fields are missing. New email with an empty field: 400 "All fields are required", no user. Otherwise: 201, exactly one user with the four given fields and a fresh id is appended, and the summary carries no password |
| `UserRoutes.PostSignup` | course_selling_Api/routes/user.js:9-43 | the handler's response and the new database contents are `SignupStep` of the old contents, and the database stays consistent |
| `UserRoutes.PostSignin` | course_selling_Api/routes/user.js:52-87 | empty email or password: 400. Otherwise 200 iff some stored user matches both email and password, with a token for a matching user's id and its summary. Every other case answers the same 401 "Invalid email or password". It writes nothing |
| `UserRoutes.GetPurchases` | course_selling_Api/routes/user.js:96-114 | 200 always. The records are exactly the caller's purchases, each as often as stored. The courses are exactly those whose id is the `courseId` of one of them, each as often as stored (once per catalog entry, not once per purchase). A user with no purchases gets two empty lists |
| `UserRoutes.CourseIdsNamePairs` | course_selling_Api/routes/user.js:104-108 | an id is among the `courseId`s of the caller's purchase records (the `$in` list) exactly when the caller owns a course with that id |
| `UserRoutes.SignupKeepsConsistent` | course_selling_Api/routes/user.js:14-33 | every signup call keeps the tables consistent: no two users ever share an email, ids stay fresh and distinct |
| `UserRoutes.SecondSignupConflicts` | course_selling_Api/routes/user.js:14-19 | after a successful signup, signing up again with the same email answers 400 and creates nobody, whatever the other fields |
| `UserRoutes.SigninAfterSignup` | course_selling_Api/routes/user.js:28-82 | signing in with the credentials just registered answers 200 with a token for the new account's id and its summary |
| `UserRoutes.SigninIdentifiesAccount` | course_selling_Api/routes/user.js:63-71 | with unique emails, a successful signin's token names the one account with that email, and that account's stored password is the one given |
| `UserRoutes.PurchaseThenListed` | course_selling_Api/routes/user.js:100-114 | after a successful purchase, the buyer's listing contains the bought course and the new purchase record |
| `AuthContext.AuthProvider.constructor` | FE_course_selling_app/src/context/AuthContext.tsx:14-17 | no user; the token is the stored `'token'` or null; admin iff the stored `'isAdmin'` is exactly `"true"` |
| `AuthContext.AuthProvider.Login` | FE_course_selling_app/src/context/AuthContext.tsx:19-24 | stores `'token' ↦ t` and `'isAdmin' ↦ String(a)`, sets `token = t` and `isAdmin = a`, and leaves the user unchanged |
| `AuthContext.AuthProvider.Logout` | FE_course_selling_app/src/context/AuthContext.tsx:26-32 | removes both keys and no other; `token` and `user` become null and `isAdmin` false |
| `AuthContext.UseAuth` | FE_course_selling_app/src/context/AuthContext.tsx:41-46 | fails with "useAuth must be used within an AuthProvider" iff there is no provider; otherwise returns the provider's value unchanged |
| `AuthContext.LogoutIdempotent` | FE_course_selling_app/src/context/AuthContext.tsx:26-32 | logging out twice gives the same state as logging out once |
| `AuthContext.LoginThenLogout` | FE_course_selling_app/src/context/AuthContext.tsx:19-32 | login followed by logout gives the same state, storage included, as logout alone |
| `AuthContext.ReloadAfterLogin` | FE_course_selling_app/src/context/AuthContext.tsx:16-24 | a provider mounted on the storage a login left behind has that token and admin flag; only the user is lost |
| `AuthContext.ReloadAfterLogout` | FE_course_selling_app/src/context/AuthContext.tsx:16-32 | a provider mounted on the storage a logout left behind is in exactly the logged-out state |

## Left out

- Concurrency: the check-then-insert in `/purchase` (course.js:28-42) can race between two requests.
  The model is sequential, so the uniqueness of pairs is proved only for requests handled one at a time.
- Token signing and verification: the jsonwebtoken library and the admin and user guards.
  - Tokens are the opaque `UserToken(id)`. The issue time (`iat`) the library adds is dropped, so two
    signins of one account give the same token in the model and different ones in the source.
  - `middleware/user.js` is not part of this model; its outcome is the `userId` parameter.
  - The admin guard (`middleware/admin.js`) and the admin routes (`routes/admin.js`) are not part of this model.
- Every `try`/`catch` 500 path. This includes the Mongoose cast error that a malformed, non-empty
  `courseId` raises. The model treats any non-empty id as a well-formed id that either names a course or does not.
- Body fields that are not strings (numbers, booleans, objects) are not modelled. Neither is the
  difference between an absent field and an empty one when it is passed into a MongoDB filter.
- Persistence, connection set-up and the keep-alive timer in `index.js`: these are I/O and timers.
- React rendering, state batching and every `fetch` call in the pages and the navigation bar.
  The provider's setters take effect immediately and in order.
- Price parsing in the course form: a price is an uninterpreted `real` that nothing computes with.
- `UserRoutes.GetPurchases`: states which records and courses appear, not their order.
  In the model both follow the tables' insertion order.
- `UserRoutes.PostSignin`: compares the stored password as given. Like the source, it does no hashing.
