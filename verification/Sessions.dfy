/** The token pair protocol: minting a bound pair, anonymous tokens, and refresh. */
module Sessions {
  import opened Wrappers
  import opened Claims

  const ROLE_ANON := "auth:anon"

  /** A signed token, opaque to its holder. */
  type Token = string

  /** Everything the signer has signed so far, what accounts hold, and, as a history of the run,
      the refresh token of the session each user access token belongs to. */
  datatype World = World(
    access: map<Token, AccessClaims>, refresh: map<Token, RefreshClaims>, roles: map<Uuid, string>,
    session: map<Token, Token>)

  datatype TokenPair = TokenPair(access: Token, refresh: Option<Token>)

  datatype SessionError =
    | SignerUnavailable
    | AccountMissing
    | InvalidAccessToken
    | InvalidRefreshToken
    | MismatchClaims
    | MismatchSource

  // ---------------------------------------------------------------------------------------
  // The signer and verifier contract.

  /** The signer draws a fresh non-empty identifier for each refresh token. */
  predicate FreshJti(w: World, jti: string) {
    jti != "" && forall t :: t in w.refresh ==> w.refresh[t].jti != jti
  }

  /** A token stands for one set of claims: signing never reuses a token for other claims. */
  predicate SignsAccess(w: World, token: Token, claims: AccessClaims) {
    token in w.access ==> w.access[token] == claims
  }

  /** A fresh identifier makes a fresh refresh token. */
  predicate FreshRefreshToken(w: World, token: Token) {
    token !in w.refresh
  }

  function VerifyAccess(w: World, token: Token): Option<AccessClaims> {
    if token in w.access then Some(w.access[token]) else None
  }

  /** A refresh token is verified in full, expiry included. */
  function VerifyRefresh(w: World, token: Token, expired: bool): Option<RefreshClaims> {
    if token in w.refresh && !expired then Some(w.refresh[token]) else None
  }

  // ---------------------------------------------------------------------------------------
  // The operations. What the signer produces comes in as an argument; None is a failing signer.

  /** Sign-up and login end here: a refresh token, then an access token naming its identifier. */
  function SignTokenPair(w: World, user: Uuid, signedRefresh: Option<(Token, string)>, signedAccess: Option<Token>)
    : (World, Result<TokenPair, SessionError>)
  {
    if user !in w.roles then (w, Err(AccountMissing))
    else match signedRefresh
      case None => (w, Err(SignerUnavailable))
      case Some((refreshToken, jti)) =>
        var w1 := w.(refresh := w.refresh[refreshToken := RefreshClaims(jti, user)]);
        match signedAccess
        case None => (w1, Err(SignerUnavailable))
        case Some(accessToken) =>
          (w1.(access := w1.access[accessToken := AccessClaims(Some(user), [w.roles[user]], jti)],
               session := w1.session[accessToken := refreshToken]),
           Ok(TokenPair(accessToken, Some(refreshToken))))
  }

  function CreateAnonymous(w: World, signedAccess: Option<Token>): (World, Result<TokenPair, SessionError>) {
    match signedAccess
    case None => (w, Err(SignerUnavailable))
    case Some(token) =>
      (w.(access := w.access[token := AccessClaims(None, [ROLE_ANON], "")]), Ok(TokenPair(token, None)))
  }

  /** The user of an anonymous token reads as the nil UUID. */
  function UserOrNil(user: Option<Uuid>): Uuid {
    if user.Some? then user.value else NIL_UUID
  }

  /** The checks of a refresh up to the signing: the claims of the token to sign. */
  function Renewal(
    w: World, accessToken: Token, refreshToken: Token, expired: bool): Result<AccessClaims, SessionError>
  {
    match VerifyAccess(w, accessToken)
    case None => Err(InvalidAccessToken)
    case Some(claims) =>
      match VerifyRefresh(w, refreshToken, expired)
      case None => Err(InvalidRefreshToken)
      case Some(refreshClaims) =>
        if UserOrNil(claims.userId) != refreshClaims.userId then Err(MismatchClaims)
        else if claims.refreshTokenId != refreshClaims.jti then Err(MismatchSource)
        else if UserOrNil(claims.userId) !in w.roles then Err(AccountMissing)
        else Ok(AccessClaims(claims.userId, [w.roles[UserOrNil(claims.userId)]], refreshClaims.jti))
  }

  function Refresh(w: World, accessToken: Token, refreshToken: Token, expired: bool, signedAccess: Option<Token>)
    : (World, Result<TokenPair, SessionError>)
  {
    match Renewal(w, accessToken, refreshToken, expired)
    case Err(e) => (w, Err(e))
    case Ok(claims) =>
      match signedAccess
      case None => (w, Err(SignerUnavailable))
      case Some(token) =>
        (w.(access := w.access[token := claims],
            session := if accessToken in w.session then w.session[token := w.session[accessToken]] else w.session),
         Ok(TokenPair(token, Some(refreshToken))))
  }

  // ---------------------------------------------------------------------------------------
  // Runs.

  datatype Op =
    | SignIn(user: Uuid, signedRefresh: Option<(Token, string)>, signedAccess: Option<Token>)
    | Anonymous(signedAccess: Option<Token>)
    | Renew(accessToken: Token, refreshToken: Token, expired: bool, signedAccess: Option<Token>)
    | SetRole(user: Uuid, role: string)
    | RemoveAccount(user: Uuid)

  function Next(w: World, op: Op): World {
    match op
    case SignIn(user, r, a) => SignTokenPair(w, user, r, a).0
    case Anonymous(a) => CreateAnonymous(w, a).0
    case Renew(access, refresh, expired, a) => Refresh(w, access, refresh, expired, a).0
    case SetRole(user, role) => w.(roles := w.roles[user := role])
    case RemoveAccount(user) => w.(roles := w.roles - {user})
  }

  /** The signer keeps its contract during this operation. */
  predicate SignerLawful(w: World, op: Op) {
    match op
    case SignIn(user, r, a) =>
      && (r.Some? ==> FreshJti(w, r.value.1) && FreshRefreshToken(w, r.value.0))
      && (r.Some? && a.Some? && user in w.roles ==>
            SignsAccess(w, a.value, AccessClaims(Some(user), [w.roles[user]], r.value.1)))
    case Anonymous(a) => a.Some? ==> SignsAccess(w, a.value, AccessClaims(None, [ROLE_ANON], ""))
    case Renew(access, refresh, expired, a) =>
      a.Some? && Renewal(w, access, refresh, expired).Ok? ==>
        SignsAccess(w, a.value, Renewal(w, access, refresh, expired).value)
    case _ => true
  }

  predicate Lawful(w: World, ops: seq<Op>)
    decreases |ops|
  {
    ops == [] || (SignerLawful(w, ops[0]) && Lawful(Next(w, ops[0]), ops[1..]))
  }

  function Run(w: World, ops: seq<Op>): World
    decreases |ops|
  {
    if ops == [] then w else Run(Next(w, ops[0]), ops[1..])
  }

  const START := World(map[], map[], map[], map[])

  /** Refresh identifiers are distinct and not empty. */
  ghost predicate DistinctJtis(w: World) {
    && (forall r :: r in w.refresh ==> w.refresh[r].jti != "")
    && (forall r, q :: r in w.refresh && q in w.refresh && w.refresh[r].jti == w.refresh[q].jti ==> r == q)
  }

  /** An access token with a user carries the identifier and the user of its session's refresh
      token; one without a user carries no identifier. */
  ghost predicate Bound(w: World, a: Token)
    requires a in w.access
  {
    if w.access[a].userId.None? then w.access[a].refreshTokenId == ""
    else
      && a in w.session && w.session[a] in w.refresh
      && w.refresh[w.session[a]] == RefreshClaims(w.access[a].refreshTokenId, w.access[a].userId.value)
  }

  ghost predicate Binding(w: World) {
    && DistinctJtis(w)
    && (forall a :: a in w.access ==> Bound(w, a))
    && (forall a :: a in w.session ==> a in w.access && w.access[a].userId.Some?)
  }

  /** A refresh goes through exactly when the access token is a user's, the refresh token is the one
      of its own session and has not expired, and the account still exists. The new token then
      keeps user and identifier, and carries the role stored at that moment. */
  lemma RenewalIsOwnSession(w: World, accessToken: Token, refreshToken: Token, expired: bool)
    requires Binding(w)
    ensures Renewal(w, accessToken, refreshToken, expired).Ok? <==>
              && accessToken in w.session && w.session[accessToken] == refreshToken
              && !expired && w.access[accessToken].userId.value in w.roles
    ensures Renewal(w, accessToken, refreshToken, expired).Ok? ==>
              var renewed := w.access[accessToken];
              Renewal(w, accessToken, refreshToken, expired).value
              == AccessClaims(renewed.userId, [w.roles[renewed.userId.value]], renewed.refreshTokenId)
  {
    if accessToken in w.access {
      assert Bound(w, accessToken);
    }
  }

  lemma AnonymousNeverRenews(w: World, accessToken: Token, refreshToken: Token, expired: bool)
    requires Binding(w)
    requires accessToken in w.access && w.access[accessToken].userId.None?
    ensures Renewal(w, accessToken, refreshToken, expired).Err?
  {
    RenewalIsOwnSession(w, accessToken, refreshToken, expired);
  }

  lemma SignInKeepsBinding(w: World, user: Uuid, r: Option<(Token, string)>, a: Option<Token>)
    requires Binding(w) && SignerLawful(w, SignIn(user, r, a))
    ensures Binding(SignTokenPair(w, user, r, a).0)
  {
    var w' := SignTokenPair(w, user, r, a).0;
    forall t | t in w'.access ensures Bound(w', t) {
      if t in w.access { assert Bound(w, t); }
    }
  }

  lemma RenewKeepsBinding(w: World, accessToken: Token, refreshToken: Token, expired: bool, a: Option<Token>)
    requires Binding(w) && SignerLawful(w, Renew(accessToken, refreshToken, expired, a))
    ensures Binding(Refresh(w, accessToken, refreshToken, expired, a).0)
    ensures Refresh(w, accessToken, refreshToken, expired, a).1.Ok? ==>
              Refresh(w, accessToken, refreshToken, expired, a).0.session[a.value] == refreshToken
  {
    RenewalIsOwnSession(w, accessToken, refreshToken, expired);
    var w' := Refresh(w, accessToken, refreshToken, expired, a).0;
    if accessToken in w.access { assert Bound(w, accessToken); }
    forall t | t in w'.access ensures Bound(w', t) {
      if t in w.access { assert Bound(w, t); }
    }
  }

  /** The pair a sign-in returns: both tokens verify, to the user with the stored role and to the
      user's refresh claims, bound by the identifier, and the one renews the other at once. */
  lemma SignedPairWorks(w: World, user: Uuid, r: Option<(Token, string)>, a: Option<Token>)
    requires Binding(w) && SignerLawful(w, SignIn(user, r, a))
    ensures var (w', result) := SignTokenPair(w, user, r, a);
            && w'.roles == w.roles
            && match result
               case Err(e) => e == if user in w.roles then SignerUnavailable else AccountMissing
               case Ok(pair) =>
                 && user in w.roles && r.Some? && a.Some?
                 && pair.access == a.value && pair.refresh == Some(r.value.0)
                 && VerifyAccess(w', pair.access) == Some(AccessClaims(Some(user), [w.roles[user]], r.value.1))
                 && VerifyRefresh(w', pair.refresh.value, false) == Some(RefreshClaims(r.value.1, user))
                 && Renewal(w', pair.access, pair.refresh.value, false)
                    == Ok(AccessClaims(Some(user), [w.roles[user]], r.value.1))
    ensures user in w.roles && r.Some? && a.Some? ==> SignTokenPair(w, user, r, a).1.Ok?
  {
    SignInKeepsBinding(w, user, r, a);
    if user in w.roles && r.Some? && a.Some? {
      RenewalIsOwnSession(SignTokenPair(w, user, r, a).0, a.value, r.value.0, false);
    }
  }

  /** The pair a refresh returns: the new access token with the refresh token that was presented. */
  lemma RefreshedPairWorks(w: World, accessToken: Token, refreshToken: Token, expired: bool, a: Option<Token>)
    requires Binding(w) && SignerLawful(w, Renew(accessToken, refreshToken, expired, a))
    ensures var (w', result) := Refresh(w, accessToken, refreshToken, expired, a);
            && w'.roles == w.roles && w'.refresh == w.refresh
            && (result.Ok? <==> a.Some? && accessToken in w.session && w.session[accessToken] == refreshToken
                                && !expired && w.access[accessToken].userId.value in w.roles)
            && match result
               case Err(_) => w' == w
               case Ok(pair) =>
                 var was := w.access[accessToken];
                 && pair.access == a.value && pair.refresh == Some(refreshToken)
                 && VerifyAccess(w', pair.access)
                    == Some(AccessClaims(was.userId, [w.roles[was.userId.value]], was.refreshTokenId))
                 && Renewal(w', pair.access, pair.refresh.value, false) == Ok(VerifyAccess(w', pair.access).value)
  {
    RenewalIsOwnSession(w, accessToken, refreshToken, expired);
    RenewKeepsBinding(w, accessToken, refreshToken, expired, a);
    var (w', result) := Refresh(w, accessToken, refreshToken, expired, a);
    if result.Ok? {
      RenewalIsOwnSession(w', a.value, refreshToken, false);
    }
  }

  /** An anonymous answer is one access token, without user, refresh token or identifier. */
  lemma AnonymousPair(w: World, a: Option<Token>)
    ensures var (w', result) := CreateAnonymous(w, a);
            match result
            case Err(e) => a.None? && e == SignerUnavailable && w' == w
            case Ok(pair) =>
              && a.Some? && pair.access == a.value && pair.refresh == None
              && VerifyAccess(w', pair.access) == Some(AccessClaims(None, ["auth:anon"], ""))
              && w'.refresh == w.refresh && w'.session == w.session && w'.roles == w.roles
  {
  }

  /** Why a refresh is refused, told by what the tokens are: not signed here, expired or not signed
      here, of another user, of another session of the same user, or of an account that is gone. */
  lemma RefusalIsNamed(w: World, accessToken: Token, refreshToken: Token, expired: bool)
    requires Binding(w)
    ensures Renewal(w, accessToken, refreshToken, expired) == Err(InvalidAccessToken) <==> accessToken !in w.access
    ensures Renewal(w, accessToken, refreshToken, expired) == Err(InvalidRefreshToken)
            <==> accessToken in w.access && (expired || refreshToken !in w.refresh)
    ensures Renewal(w, accessToken, refreshToken, expired) == Err(MismatchClaims)
            <==> accessToken in w.access && !expired && refreshToken in w.refresh
                 && w.refresh[refreshToken].userId
                    != (match w.access[accessToken].userId case Some(u) => u case None => NIL_UUID)
    ensures accessToken in w.session && !expired && refreshToken in w.refresh
            && w.refresh[refreshToken].userId == w.access[accessToken].userId.value ==>
              (Renewal(w, accessToken, refreshToken, expired) == Err(MismatchSource)
               <==> refreshToken != w.session[accessToken])
    ensures Renewal(w, accessToken, refreshToken, expired) == Err(AccountMissing) ==>
              accessToken in w.session && w.session[accessToken] == refreshToken
              && w.access[accessToken].userId.value !in w.roles
  {
    if accessToken in w.access { assert Bound(w, accessToken); }
  }

  lemma NextKeepsBinding(w: World, op: Op)
    requires Binding(w) && SignerLawful(w, op)
    ensures Binding(Next(w, op))
  {
    match op
    case SignIn(user, r, a) => SignInKeepsBinding(w, user, r, a);
    case Renew(access, refresh, expired, a) => RenewKeepsBinding(w, access, refresh, expired, a);
    case Anonymous(a) =>
      var w' := Next(w, op);
      forall t | t in w'.access ensures Bound(w', t) {
        if t in w.access { assert Bound(w, t); }
      }
    case SetRole(_, _) =>
      forall t | t in w.access ensures Bound(Next(w, op), t) { assert Bound(w, t); }
    case RemoveAccount(_) =>
      forall t | t in w.access ensures Bound(Next(w, op), t) { assert Bound(w, t); }
  }

  lemma {:induction false} RunKeepsBinding(w: World, ops: seq<Op>)
    requires Binding(w) && Lawful(w, ops)
    ensures Binding(Run(w, ops))
    decreases |ops|
  {
    if ops != [] {
      NextKeepsBinding(w, ops[0]);
      RunKeepsBinding(Next(w, ops[0]), ops[1..]);
    }
  }

  /** After any run of sign-ins, anonymous tokens, role changes and refresh chains of any length, the
      only refresh token that renews an access token is that of the session it was minted in. */
  lemma SessionBinding(ops: seq<Op>, accessToken: Token, refreshToken: Token, expired: bool)
    requires Lawful(START, ops)
    ensures var w := Run(START, ops);
            Renewal(w, accessToken, refreshToken, expired).Ok? <==>
              && accessToken in w.session && accessToken in w.access && w.access[accessToken].userId.Some?
              && w.session[accessToken] == refreshToken
              && !expired && w.access[accessToken].userId.value in w.roles
    ensures var w := Run(START, ops);
            accessToken in w.access && w.access[accessToken].userId.Some? ==>
              exists r ::
                var claims := w.access[accessToken];
                r in w.refresh && w.refresh[r] == RefreshClaims(claims.refreshTokenId, claims.userId.value)
  {
    RunKeepsBinding(START, ops);
    var w := Run(START, ops);
    RenewalIsOwnSession(w, accessToken, refreshToken, expired);
    if accessToken in w.access { assert Bound(w, accessToken); }
  }

  /** What an access token was signed with, and its session, never change afterwards. */
  lemma {:induction false} TokensStay(w: World, ops: seq<Op>, accessToken: Token)
    requires Binding(w) && Lawful(w, ops) && accessToken in w.session
    ensures accessToken in Run(w, ops).session && Run(w, ops).session[accessToken] == w.session[accessToken]
    ensures accessToken in Run(w, ops).access && Run(w, ops).access[accessToken] == w.access[accessToken]
    decreases |ops|
  {
    if ops != [] {
      var w' := Next(w, ops[0]);
      NextKeepsBinding(w, ops[0]);
      assert Bound(w, accessToken);
      assert accessToken in w'.access && w'.access[accessToken] == w.access[accessToken];
      assert accessToken in w'.session;
      assert Bound(w', accessToken);
      TokensStay(w', ops[1..], accessToken);
    }
  }

  /** This operation renews `accessToken` and answers with `renewed`. */
  predicate Renews(w: World, op: Op, accessToken: Token, renewed: Token) {
    && op.Renew? && op.accessToken == accessToken && op.signedAccess == Some(renewed)
    && Renewal(w, accessToken, op.refreshToken, op.expired).Ok?
  }

  /** Along the run, `last` is obtained from `first` by zero or more successful renewals, with
      anything else in between and whatever refresh token each of them presents. */
  predicate IsChain(w: World, ops: seq<Op>, first: Token, last: Token)
    decreases |ops|
  {
    if ops == [] then first == last
    else
      || IsChain(Next(w, ops[0]), ops[1..], first, last)
      || (ops[0].Renew? && ops[0].signedAccess.Some? && Renews(w, ops[0], first, ops[0].signedAccess.value)
          && IsChain(Next(w, ops[0]), ops[1..], ops[0].signedAccess.value, last))
  }

  /** One link: the renewed token is of the same session, user and identifier as the one renewed. */
  lemma RenewalStaysInSession(w: World, op: Op, first: Token, renewed: Token)
    requires Binding(w) && SignerLawful(w, op) && first in w.session && Renews(w, op, first, renewed)
    ensures var w' := Next(w, op);
            && Binding(w') && renewed in w'.session && w'.session[renewed] == w.session[first]
            && w'.session[renewed] == op.refreshToken
            && renewed in w'.access && first in w.access
            && w'.access[renewed].userId == w.access[first].userId
            && w'.access[renewed].refreshTokenId == w.access[first].refreshTokenId
  {
    NextKeepsBinding(w, op);
    RenewalIsOwnSession(w, first, op.refreshToken, op.expired);
  }

  /** A chain of renewals of any length stays in its session: the token at its end has the session,
      the user and the identifier of the token at its start, and renews only with the refresh token
      of that session. */
  lemma {:induction false} ChainStaysInSession(w: World, ops: seq<Op>, first: Token, last: Token)
    requires Binding(w) && Lawful(w, ops) && first in w.session && IsChain(w, ops, first, last)
    ensures var w' := Run(w, ops);
            && last in w'.session && w'.session[last] == w.session[first]
            && first in w.access && last in w'.access
            && w'.access[last].userId == w.access[first].userId
            && w'.access[last].refreshTokenId == w.access[first].refreshTokenId
            && forall refreshToken, expired ::
                 Renewal(w', last, refreshToken, expired).Ok? ==> refreshToken == w.session[first]
    decreases |ops|
  {
    if ops == [] {
      forall refreshToken, expired | Renewal(w, last, refreshToken, expired).Ok?
        ensures refreshToken == w.session[first]
      {
        RenewalIsOwnSession(w, last, refreshToken, expired);
      }
    } else {
      var w1 := Next(w, ops[0]);
      NextKeepsBinding(w, ops[0]);
      if IsChain(w1, ops[1..], first, last) {
        TokensStay(w, ops[..1], first);
        assert Run(w, ops[..1]) == w1;
        ChainStaysInSession(w1, ops[1..], first, last);
      } else {
        var renewed := ops[0].signedAccess.value;
        RenewalStaysInSession(w, ops[0], first, renewed);
        ChainStaysInSession(w1, ops[1..], renewed, last);
      }
    }
  }
}
