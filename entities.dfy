/**
 * The records the backend stores and the responses its route handlers send.
 * Field names follow the client's type declarations and the Mongoose models.
 */
module Entities {

  /**
   * A document identifier. MongoDB hands out a fresh ObjectId for every
   * inserted document; the model hands out consecutive serial numbers instead
   * (see Store.Tables.nextId), which keeps the one property used: freshness.
   */
  type Id = nat

  /** A stored user account. The password is stored and compared as given. */
  datatype User = User(id: Id, email: string, password: string, firstName: string, lastName: string)

  /** A catalog entry; `creatorId` is the admin who created it. The price is carried, never computed with. */
  datatype Course = Course(id: Id, title: string, description: string, imageUrl: string, price: real, creatorId: Id)

  /** An entitlement: user `userId` owns course `courseId`. */
  datatype Purchase = Purchase(id: Id, userId: Id, courseId: Id)

  /** The user fields a response may carry: everything but the password. */
  datatype UserSummary = UserSummary(id: Id, email: string, firstName: string, lastName: string)

  function Summary(u: User): UserSummary {
    UserSummary(u.id, u.email, u.firstName, u.lastName)
  }

  /**
   * A bearer token signed with the user secret over the payload `{ id }`,
   * to which the signing library adds an issue time. Signing is left
   * uninterpreted and the issue time dropped: the token is an opaque,
   * injective image of the subject id, and a constructor is exactly that.
   */
  datatype Token = UserToken(subject: Id)

  /** The JSON body of a response. */
  datatype Body =
    | Message(message: string)
    | PurchaseCreated(message: string, purchase: Purchase)
    | CourseList(message: string, courses: seq<Course>)
    | SignupOk(message: string, user: UserSummary)
    | SigninOk(message: string, token: Token, user: UserSummary)
    | PurchaseList(message: string, purchases: seq<Purchase>, coursesData: seq<Course>)

  /** An HTTP response: status code and body (`res.json` alone means status 200). */
  datatype Response = Response(status: nat, body: Body)
}
