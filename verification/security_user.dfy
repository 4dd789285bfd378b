/** The request-scoped identity the authentication filter installs (`SecurityUser`)
    and the principal slot of the security context that holds it. */
module Security {
  import opened Types

  datatype SecurityUser = SecurityUser(
    id: int,
    username: string,
    password: string,
    nickname: Option<string>,
    authorities: seq<string>)

  /** The principal of the current authentication: a `SecurityUser` or something else. */
  datatype Principal = UserPrincipal(user: SecurityUser) | OtherPrincipal
}
