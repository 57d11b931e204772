/**
 * The authentication provider's two hooks: fetching the principal for a
 * username, and checking the submitted password against the stored hash.
 */
module AccountAuthenticationProvider {
  import opened Wrappers
  import opened Accounts
  import AccountUserDetailsService

  /** The message when either the submitted or the stored credential is null. */
  const NullCredentialsMessage: string := "Credentials may not be null"

  /** The message when the submitted password does not match the stored hash. */
  const InvalidCredentialsMessage: string := "Invalid credentials"

  /**
   * The additional check: a null guard on both credentials, then the
   * password matcher on (submitted, stored). It only succeeds or fails;
   * it yields no principal and no token.
   */
  function AdditionalAuthenticationChecks(matches: PasswordMatcher, userDetails: Principal, token: Token)
    : (r: Result<(), AuthError>)
    ensures r.Ok? <==> token.credentials.Some? && userDetails.password.Some?
                       && matches(token.credentials.value, userDetails.password.value)
    ensures r.Err? ==> r.error.BadCredentials?
    ensures token.credentials.None? || userDetails.password.None? ==>
              r.error.message == NullCredentialsMessage
    ensures token.credentials.Some? && userDetails.password.Some?
            && !matches(token.credentials.value, userDetails.password.value) ==>
              r.error.message == InvalidCredentialsMessage
  {
    if token.credentials.None? || userDetails.password.None? then
      Err(BadCredentials(NullCredentialsMessage))
    else if !matches(token.credentials.value, userDetails.password.value) then
      Err(BadCredentials(InvalidCredentialsMessage))
    else
      Ok(())
  }

  /** Fetches the principal for `username` through the user-details adapter. */
  function RetrieveUser(findByUsername: AccountLookup, username: string, token: Token)
    : (r: Result<Principal, AuthError>)
    ensures r == AccountUserDetailsService.LoadUser(findByUsername, username)
  {
    AccountUserDetailsService.LoadUser(findByUsername, username)
  }

  // ----- Properties of the two hooks -----

  /** With a null credential on either side the matcher is never consulted. */
  lemma NullGuardIgnoresMatcher(m1: PasswordMatcher, m2: PasswordMatcher, userDetails: Principal, token: Token)
    requires token.credentials.None? || userDetails.password.None?
    ensures AdditionalAuthenticationChecks(m1, userDetails, token)
         == AdditionalAuthenticationChecks(m2, userDetails, token)
  {
  }

  /** The matcher is consulted on the pair (submitted, stored) and on nothing else. */
  lemma MatcherConsultedOnPairOnly(m1: PasswordMatcher, m2: PasswordMatcher, userDetails: Principal, token: Token)
    requires token.credentials.Some? && userDetails.password.Some?
    requires m1(token.credentials.value, userDetails.password.value)
          == m2(token.credentials.value, userDetails.password.value)
    ensures AdditionalAuthenticationChecks(m1, userDetails, token)
         == AdditionalAuthenticationChecks(m2, userDetails, token)
  {
  }

  /** The token handed to `RetrieveUser` plays no part in its outcome. */
  lemma RetrieveUserIgnoresToken(findByUsername: AccountLookup, username: string, t1: Token, t2: Token)
    ensures RetrieveUser(findByUsername, username, t1) == RetrieveUser(findByUsername, username, t2)
  {
  }

  /**
   * Taken together, the two hooks accept a username and token exactly when
   * an account exists, it has at least one role, both credentials are
   * non-null and the matcher accepts them; the principal then carries one
   * authority per role code, and at least one.
   */
  lemma HooksAcceptExactly(matches: PasswordMatcher, findByUsername: AccountLookup, token: Token)
    ensures var retrieved := RetrieveUser(findByUsername, token.name, token);
            var found := findByUsername(token.name);
            (retrieved.Ok? && AdditionalAuthenticationChecks(matches, retrieved.value, token).Ok?)
            <==>
            (found.Some? && AccountUserDetailsService.HasRoles(found.value)
             && token.credentials.Some? && found.value.password.Some?
             && matches(token.credentials.value, found.value.password.value))
    ensures var retrieved := RetrieveUser(findByUsername, token.name, token);
            retrieved.Ok? ==>
              && |retrieved.value.authorities| > 0
              && retrieved.value.authorities
                 == AccountUserDetailsService.AuthoritiesOf(findByUsername(token.name).value.roles.value)
  {
  }
}
