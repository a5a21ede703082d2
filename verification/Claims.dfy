/** The JWT payloads this service signs and reads back. */
module Claims {
  import opened Wrappers

  /** A UUID in its canonical text form, which is how it travels in targets and claims. */
  type Uuid = string

  const NIL_UUID: Uuid := "00000000-0000-0000-0000-000000000000"

  /** `userId` is absent on anonymous tokens; `refreshTokenId` is then the empty string. */
  datatype AccessClaims = AccessClaims(userId: Option<Uuid>, roles: seq<string>, refreshTokenId: string)

  datatype RefreshClaims = RefreshClaims(jti: string, userId: Uuid)
}
