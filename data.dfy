/**
 * The values the core receives from the storage layer (users, tokens, store
 * errors). The store itself is outside the model: every lookup is a function
 * parameter that returns a value or an error.
 */
module Data {
  import opened Decimal

  /** `data.ScopeAuthentication`, the scope of tokens that authenticate requests. */
  const ScopeAuthentication: string := "authentication"

  /** The fields of `data.User` the core reads. */
  datatype User = User(id: Int64, email: string, activated: bool)

  /** The principal attached to a request: `data.AnonymousUser`, a distinguished
      value that `IsAnonymous` recognises, or a user found in the store. */
  datatype Principal = Anonymous | Known(user: User)

  /** `user.Activated`; the anonymous user is the zero `User`, so not activated. */
  function Activated(p: Principal): bool
  {
    match p
    case Anonymous => false
    case Known(u) => u.activated
  }

  /** The error a store call returns: `ErrRecordNotFound` or any other error. */
  datatype StoreError = RecordNotFound | Fault

  /** A token as `Tokens.New` returns it; the plaintext is what the client receives. */
  datatype Token = Token(plaintext: string, userId: Int64, scope: string)
}
