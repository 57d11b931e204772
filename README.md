# Account authentication core of SpringSecurityProject

This project models, in Dafny, the two classes of the application that hold
its own authentication logic:

- `AccountUserDetailsService.loadUserByUsername` looks an account up by
  username. It fails with `UsernameNotFoundException("User <name> not found")`
  when no account exists. It fails with
  `UsernameNotFoundException("User not authorized")` when the account's role
  collection is null or empty. Otherwise it builds a principal (Spring's
  `User`). The principal gets the account's username and password, the
  `enabled` flag as is, and the negations of `expired`, `credentialsexpired`
  and `locked`. It also gets one `SimpleGrantedAuthority` per role, in
  iteration order, whose string is the role's code verbatim.
- `AccountAuthenticationProvider.additionalAuthenticationChecks` throws
  `BadCredentialsException("Credentials may not be null")` when the submitted
  or the stored credential is null. Otherwise it throws
  `BadCredentialsException("Invalid credentials")` when the password encoder
  does not match them. Otherwise it returns normally.
  `retrieveUser` delegates to the user-details service and ignores its token.

Files:

- `wrappers.dfy`: `Option` (a nullable reference) and `Result` (a normal
  return or a thrown exception).
- `accounts.dfy`: the entities — `Account`, `Role`, `Authority`, `Principal`,
  `Token`, `AuthError` — and the two collaborators taken as parameters.
  `AccountLookup` is the account service's `findByUsername`.
  `PasswordMatcher` is the password encoder's `matches(raw, encoded)`.
- `user_details_service.dfy`: module `AccountUserDetailsService`.
  `LoadUserByUsername` is the method with the source's loop; it is proved
  equal to the specification function `LoadUser`. Then come the properties of
  `LoadUser`, and the inverse `AccountOf` that reads the account back from a
  principal.
- `authentication_provider.dfy`: module `AccountAuthenticationProvider`, as
  functions (the source's provider has no loop and updates no state).

The account's stored password and the token's credentials are `Option`s,
because the source tests both for null.
The account's role collection is `Option<seq<Role>>`, because the source tests
it for null as well as for emptiness. Its order is the collection's
iteration order.

## Model

| member | source | states |
|---|---|---|
| AccountUserDetailsService.LoadUserByUsername | src/main/java/org/pazu/security/AccountUserDetailsService.java:29-59 | The method, with its authority-building loop, returns exactly the outcome `LoadUser` specifies for the same lookup and username |
| AccountUserDetailsService.LoadUser | src/main/java/org/pazu/security/AccountUserDetailsService.java:29-59 | Succeeds iff the account exists and has a non-null, non-empty role collection. Every failure is a UsernameNotFound. A missing account gives "User <name> not found"; a role-less account gives "User not authorized". On success the principal has at least one authority, and reading it back gives exactly the looked-up account |
| AccountUserDetailsService.AuthoritiesOf | src/main/java/org/pazu/security/AccountUserDetailsService.java:45-49 | One authority per role, in role order, each equal to the role's code with no prefix added |
| AccountUserDetailsService.PrincipalRoundTrip | src/main/java/org/pazu/security/AccountUserDetailsService.java:51-54 | The principal built from an account gives that account back: username and password are copied, `enabled` is copied, expired/credentialsexpired/locked become their negations, and the role codes become the authorities |
| AccountUserDetailsService.RolesOfAuthoritiesOf | src/main/java/org/pazu/security/AccountUserDetailsService.java:45-49 | The role list can be recovered from the authorities granted for it, so no role is dropped, merged or altered |
| AccountUserDetailsService.NotFoundMessage | src/main/java/org/pazu/security/AccountUserDetailsService.java:37-38 | The "not found" message contains the requested username verbatim, right after "User " |
| AccountUserDetailsService.NotFoundMessageInjective | src/main/java/org/pazu/security/AccountUserDetailsService.java:37-38 | Distinct usernames give distinct "not found" messages |
| AccountUserDetailsService.NotFoundIsNotNotAuthorized | src/main/java/org/pazu/security/AccountUserDetailsService.java:36-43 | No username makes the "not found" message equal to "User not authorized" |
| AccountUserDetailsService.MissingAccountNeverNotAuthorized | src/main/java/org/pazu/security/AccountUserDetailsService.java:36-43 | When the lookup finds no account, the outcome is never the "not authorized" failure: the missing-account guard is decided first |
| AccountUserDetailsService.AuthorityStringsAreRoleCodes | src/main/java/org/pazu/security/AccountUserDetailsService.java:45-49 | The set of authority strings granted for a role list equals the set of its role codes |
| AccountUserDetailsService.AuthoritiesAreRoleCodes | src/main/java/org/pazu/security/AccountUserDetailsService.java:41-49 | On success the account and its role collection exist. The authority list has exactly one entry per role, in order, equal to the role's code. The set of authority strings equals the set of role codes |
| AccountAuthenticationProvider.AdditionalAuthenticationChecks | src/main/java/org/pazu/security/AccountAuthenticationProvider.java:27-43 | Passes iff both credentials are non-null and the matcher accepts (submitted, stored). Every failure is BadCredentials: "Credentials may not be null" when either is null, "Invalid credentials" when the matcher refuses. It returns no principal or token, so it changes neither |
| AccountAuthenticationProvider.NullGuardIgnoresMatcher | src/main/java/org/pazu/security/AccountAuthenticationProvider.java:33-37 | When either credential is null, the outcome is the same for every matcher: the null guard precedes the match |
| AccountAuthenticationProvider.MatcherConsultedOnPairOnly | src/main/java/org/pazu/security/AccountAuthenticationProvider.java:37-38 | Two matchers that agree on (submitted, stored) give the same outcome: the matcher is consulted on that pair only |
| AccountAuthenticationProvider.RetrieveUser | src/main/java/org/pazu/security/AccountAuthenticationProvider.java:45-54 | Returns exactly the user-details outcome for the username, success or failure, unchanged |
| AccountAuthenticationProvider.RetrieveUserIgnoresToken | src/main/java/org/pazu/security/AccountAuthenticationProvider.java:46-53 | The token argument has no influence on the retrieved outcome |
| AccountAuthenticationProvider.HooksAcceptExactly | src/main/java/org/pazu/security/AccountAuthenticationProvider.java:27-54 | Retrieval followed by the additional check accepts iff the account exists, has a role, both credentials are non-null and the matcher accepts them. A retrieved principal carries at least one authority, namely those of the account's roles |

## Left out

- Logging (`logger.debug` in both classes): diagnostic output only.
- `SecurityConfiguration` (the `/api/**` chain with `hasRole("USER")`, HTTP Basic and the stateless session policy) is declarative framework configuration and is not part of this model. Neither is its `ROLE_` prefix expansion. The commented-out actuator chain is not modelled either.
- BCrypt hashing: the password encoder is the opaque parameter `matches`. Nothing is proved about hashing.
- `AccountServiceBean` and its JPA repository: they appear only as the lookup parameter, a total function from username to an optional account.
- Spring's `User` constructor: it rejects a null or empty username and a null password, and it sorts and deduplicates authorities. The model states its properties about the list the code builds and passes in.
- `SimpleGrantedAuthority` rejects an empty or null role code. Role codes are modelled as plain strings, so that rejection is not modelled.
- `AbstractUserDetailsAuthenticationProvider.authenticate` is not modelled: its pre- and post-checks of the status flags, its user cache, and its conversion of `UsernameNotFoundException` into a uniform `BadCredentialsException`. The model keeps the distinct messages the code throws. The uniform response at the HTTP boundary belongs to this framework step. `HooksAcceptExactly` composes only the two hooks this code defines.
- A null username (Java would give "User null not found") is not modelled: usernames are strings. Token credentials that are not a `String` are not modelled either; the source's cast would throw `ClassCastException`.
- Concurrency between requests and the database's own behaviour: external to this logic. Each call here is a function of its inputs, so a repeated request gets the same outcome.
