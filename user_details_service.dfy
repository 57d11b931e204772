/**
 * The user-details adapter: looks an account up by username and turns it
 * into a principal, or fails with "not found" or "not authorized".
 */
module AccountUserDetailsService {
  import opened Wrappers
  import opened Accounts

  /** The message of the failure for a username with no account. */
  function NotFoundMessage(username: string): (msg: string)
    ensures |msg| == |username| + 15
    ensures msg[5..5 + |username|] == username
  {
    "User " + username + " not found"
  }

  /** The message of the failure for an account without roles. */
  const NotAuthorizedMessage: string := "User not authorized"

  /** The account has a non-null, non-empty role collection. */
  predicate HasRoles(account: Account)
  {
    account.roles.Some? && |account.roles.value| > 0
  }

  /** The authorities granted for a role list: one per role, its code verbatim, in order. */
  function AuthoritiesOf(roles: seq<Role>): (granted: seq<Authority>)
    ensures |granted| == |roles|
    ensures forall k :: 0 <= k < |roles| ==> granted[k] == Authority(roles[k].code)
  {
    if roles == [] then [] else [Authority(roles[0].code)] + AuthoritiesOf(roles[1..])
  }

  /** The principal built from an account whose role collection is not null. */
  function PrincipalOf(account: Account): Principal
    requires account.roles.Some?
  {
    Principal(account.username, account.password, account.enabled,
              !account.expired, !account.credentialsexpired, !account.locked,
              AuthoritiesOf(account.roles.value))
  }

  /**
   * The adapter's outcome for a username, given the account lookup.
   * Both guards are decided before any principal is built, the missing
   * account first.
   */
  function LoadUser(findByUsername: AccountLookup, username: string): (r: Result<Principal, AuthError>)
    ensures r.Ok? <==> findByUsername(username).Some? && HasRoles(findByUsername(username).value)
    ensures r.Err? ==> r.error.UsernameNotFound?
    ensures findByUsername(username).None? ==> r.error.message == NotFoundMessage(username)
    ensures findByUsername(username).Some? && !HasRoles(findByUsername(username).value) ==>
              r.error.message == NotAuthorizedMessage
    ensures r.Ok? ==> |r.value.authorities| > 0
    ensures r.Ok? ==> AccountOf(r.value) == findByUsername(username).value
  {
    match findByUsername(username)
    case None => Err(UsernameNotFound(NotFoundMessage(username)))
    case Some(account) =>
      if !HasRoles(account) then Err(UsernameNotFound(NotAuthorizedMessage))
      else
        PrincipalRoundTrip(account);
        Ok(PrincipalOf(account))
  }

  /**
   * Loads the principal for `username`: the two guards, then one authority
   * per role appended in iteration order, then the principal.
   */
  method LoadUserByUsername(findByUsername: AccountLookup, username: string)
    returns (r: Result<Principal, AuthError>)
    ensures r == LoadUser(findByUsername, username)
  {
    var account := findByUsername(username);
    if account.None? {
      return Err(UsernameNotFound(NotFoundMessage(username)));
    }
    if account.value.roles.None? || |account.value.roles.value| == 0 {
      return Err(UsernameNotFound(NotAuthorizedMessage));
    }
    var roles := account.value.roles.value;
    var grantedAuthorities: seq<Authority> := [];
    for i := 0 to |roles|
      invariant |grantedAuthorities| == i
      invariant forall k :: 0 <= k < i ==> grantedAuthorities[k] == Authority(roles[k].code)
    {
      grantedAuthorities := grantedAuthorities + [Authority(roles[i].code)];
    }
    var a := account.value;
    r := Ok(Principal(a.username, a.password, a.enabled,
                      !a.expired, !a.credentialsexpired, !a.locked,
                      grantedAuthorities));
    assert grantedAuthorities == AuthoritiesOf(roles);
  }

  // ----- The inverse of principal construction -----

  /** The roles whose codes are the given authority strings. */
  function RolesOf(granted: seq<Authority>): seq<Role>
  {
    if granted == [] then [] else [Role(granted[0].authority)] + RolesOf(granted[1..])
  }

  /** The account a principal was built from, read back field by field. */
  function AccountOf(p: Principal): Account
  {
    Account(p.username, p.password, p.enabled,
            !p.accountNonExpired, !p.credentialsNonExpired, !p.accountNonLocked,
            Some(RolesOf(p.authorities)))
  }

  /** The role codes can be read back from the granted authorities. */
  lemma {:induction false} RolesOfAuthoritiesOf(roles: seq<Role>)
    ensures RolesOf(AuthoritiesOf(roles)) == roles
  {
    if roles != [] {
      RolesOfAuthoritiesOf(roles[1..]);
      assert AuthoritiesOf(roles)[1..] == AuthoritiesOf(roles[1..]);
    }
  }

  /**
   * Principal construction loses nothing: username and password are copied,
   * `enabled` is copied, the three other flags are negated, and the role
   * codes are the authorities.
   */
  lemma PrincipalRoundTrip(account: Account)
    requires account.roles.Some?
    ensures AccountOf(PrincipalOf(account)) == account
  {
    RolesOfAuthoritiesOf(account.roles.value);
  }

  // ----- Properties of the adapter -----

  /** The "not found" message is never the "not authorized" message. */
  lemma NotFoundIsNotNotAuthorized(username: string)
    ensures NotFoundMessage(username) != NotAuthorizedMessage
  {
  }

  /** Distinct usernames give distinct "not found" messages. */
  lemma NotFoundMessageInjective(u1: string, u2: string)
    requires NotFoundMessage(u1) == NotFoundMessage(u2)
    ensures u1 == u2
  {
  }

  /** A missing account never yields "not authorized": the missing-account guard comes first. */
  lemma MissingAccountNeverNotAuthorized(findByUsername: AccountLookup, username: string)
    requires findByUsername(username).None?
    ensures LoadUser(findByUsername, username) != Err(UsernameNotFound(NotAuthorizedMessage))
  {
  }

  /** The authority strings of a list of granted authorities, as a set. */
  function AuthorityStrings(granted: seq<Authority>): set<string>
  {
    set g | g in granted :: g.authority
  }

  /** The codes of a list of roles, as a set. */
  function RoleCodes(roles: seq<Role>): set<string>
  {
    set x | x in roles :: x.code
  }

  /** The authorities granted for a role list carry exactly the set of its codes. */
  lemma AuthorityStringsAreRoleCodes(roles: seq<Role>)
    ensures AuthorityStrings(AuthoritiesOf(roles)) == RoleCodes(roles)
  {
  }

  /**
   * On success the authority strings are exactly the account's role codes:
   * the same list in the same order, hence the same set.
   */
  lemma AuthoritiesAreRoleCodes(findByUsername: AccountLookup, username: string)
    requires LoadUser(findByUsername, username).Ok?
    ensures findByUsername(username).Some? && findByUsername(username).value.roles.Some?
    ensures var roles := findByUsername(username).value.roles.value;
            var granted := LoadUser(findByUsername, username).value.authorities;
            && |granted| == |roles|
            && (forall k :: 0 <= k < |roles| ==> granted[k].authority == roles[k].code)
            && AuthorityStrings(granted) == RoleCodes(roles)
  {
  }
}
