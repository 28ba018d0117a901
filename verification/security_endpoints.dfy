/**
 Issuing a session token: a token is signed for a user id only when that id
 names an existing customer or vendor; otherwise the request is denied. The
 operation only reads the datastore: it is a function of the datastore and
 returns no new one.
 */
module SecurityEndpoints {
  import opened Wrappers
  import opened Documents
  import opened FirestoreService
  import Domain

  /** Seconds a freshly issued token stays valid. */
  const TokenLifetime := 60

  const DeniedStatus := 401
  const DeniedMessage := "Access Denied - Invalid User ID"

  /** The request member carrying the user id. */
  const UserIdParam := "user_id"

  /** The signed token `create_jwt(user_id, exp, secret)` produces, kept
      opaque: the signing scheme lives in a library. */
  datatype Jwt = Jwt(userId: string, exp: int, secret: Value)

  /** The reply body: `{token: ...}` or the error `return_error` builds. */
  datatype Reply = TokenReply(token: Jwt) | ErrorReply(status: int, message: string)

  /** The user id the request names: a string `user_id` member. A missing or
      null member names no stored user. */
  function RequestedUser(input: Fields): (r: Option<string>)
    ensures r.Some? <==> UserIdParam in input && input[UserIdParam].Text?
    ensures r.Some? ==> input[UserIdParam] == Text(r.value)
  {
    if UserIdParam in input && input[UserIdParam].Text? then Some(input[UserIdParam].s) else None
  }

  /** `create_refresh_token(json_input, firestore_service, jwt_secret)` at
      time `now` (whole seconds since the epoch). */
  function CreateRefreshToken(input: Fields, db: Db, jwtSecret: Value, now: int): (r: Reply)
    ensures r.TokenReply? <==> RequestedUser(input).Some? && ValidUser(db, RequestedUser(input).value)
    ensures r.TokenReply? ==>
      && r.token.userId == RequestedUser(input).value
      && r.token.secret == jwtSecret
      && r.token.exp == now + TokenLifetime
    ensures r.ErrorReply? ==> r.status == DeniedStatus && r.message == DeniedMessage
  {
    match RequestedUser(input)
    case Some(userId) =>
      if ValidUser(db, userId) then TokenReply(Jwt(userId, now + TokenLifetime, jwtSecret))
      else ErrorReply(DeniedStatus, DeniedMessage)
    case None => ErrorReply(DeniedStatus, DeniedMessage)
  }

  /** A token is issued exactly for ids of stored customers or vendors, and
      a customer present in both collections is accepted as well. */
  lemma TokenIffStoredUser(input: Fields, db: Db, jwtSecret: Value, now: int, userId: string)
    requires UserIdParam in input && input[UserIdParam] == Text(userId)
    ensures CreateRefreshToken(input, db, jwtSecret, now).TokenReply?
            <==> CustomerPath(userId) in db || VendorPath(userId) in db
    ensures !(CustomerPath(userId) in db || VendorPath(userId) in db) ==>
            CreateRefreshToken(input, db, jwtSecret, now) == ErrorReply(401, "Access Denied - Invalid User ID")
  {
  }

  /** The issued token expires exactly a minute after issue. */
  lemma TokenExpiresAfterOneMinute(input: Fields, db: Db, jwtSecret: Value, now: int)
    requires CreateRefreshToken(input, db, jwtSecret, now).TokenReply?
    ensures CreateRefreshToken(input, db, jwtSecret, now).token.exp - now == 60
  {
  }

  /** Saving a store never changes whether a token is issued, nor which. */
  lemma RefreshTokenUnaffectedBySaveStore(input: Fields, db: Db, jwtSecret: Value, now: int,
                                          s: Domain.Store, vendorId: string, newId: string)
    requires StorePath(newId) !in db
    requires VendorPath(vendorId) in db
    ensures CreateRefreshToken(input, SaveStore(db, s, vendorId, newId).db, jwtSecret, now)
            == CreateRefreshToken(input, db, jwtSecret, now)
  {
  }
}
