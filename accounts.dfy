/**
 * The entities the security layer reads: the stored account and its roles,
 * the principal handed to the authentication framework, the submitted token,
 * and the two kinds of authentication failure.
 */
module Accounts {
  import opened Wrappers

  /** A role attached to an account; its code is used as the authority string. */
  datatype Role = Role(code: string)

  /**
   * A stored account, as the account service returns it.
   * `password` is the stored hash; `None` is a null column.
   * `roles` is the account's role collection; `None` is a null collection.
   */
  datatype Account = Account(
    username: string,
    password: Option<string>,
    enabled: bool,
    expired: bool,
    credentialsexpired: bool,
    locked: bool,
    roles: Option<seq<Role>>)

  /** A granted authority: a plain authority string. */
  datatype Authority = Authority(authority: string)

  /**
   * The principal built for the framework: the account's credentials, four
   * status flags in their positive ("non-") form, and the granted authorities
   * in the order they were added.
   */
  datatype Principal = Principal(
    username: string,
    password: Option<string>,
    enabled: bool,
    accountNonExpired: bool,
    credentialsNonExpired: bool,
    accountNonLocked: bool,
    authorities: seq<Authority>)

  /** A username/password authentication token; `None` credentials are null. */
  datatype Token = Token(name: string, credentials: Option<string>)

  /** The two exceptions the core throws, each with its message. */
  datatype AuthError =
    | UsernameNotFound(message: string)
    | BadCredentials(message: string)

  /** The account service's lookup by exact username; `None` when no account exists. */
  type AccountLookup = string -> Option<Account>

  /** The password encoder's `matches(raw, encoded)`; its hashing is not modelled. */
  type PasswordMatcher = (string, string) -> bool
}
