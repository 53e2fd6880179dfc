/** What every handler shares: the caller the authentication gate identified, and the reply it sends. */
module Http {
  import opened Wrappers

  /** `req.user`: the caller's user id, organisation id and email, as the token carried them. */
  datatype Identity = Identity(userId: int, orgId: int, email: string)

  /** A JSON reply: the status code, the message, and the data when there is any. */
  datatype Reply<T> = Reply(status: int, message: string, data: Option<T>)
}
