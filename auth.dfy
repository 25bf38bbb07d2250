/**
 * The credential logic of `Endpoints/Auth.cs` over the user and organizer
 * tables: login, token refresh at the level of its claims, the profile, and
 * the password-reset token lifecycle. The handlers that write rows are
 * methods of `Store.FutebolStore`.
 *
 * SHA-256 is an uninterpreted function `hash` (not assumed injective), a JWT
 * is its claims, and the clock is a number of seconds.
 */
module Auth {
  import opened Wrappers
  import opened Seqs
  import opened Domain
  import opened Constraints
  import opened Replies

  /** The only role the handlers put in a token. */
  const ROLE := "organizador"

  /** A reset token is valid for 24 hours. */
  const RESET_WINDOW := 24 * 3600

  /** The message of both login failures. */
  const BAD_CREDENTIALS := "Credenciais inválidas."

  /** The message of a failed password reset. */
  const BAD_RESET := "Token inválido ou expirado."

  /** A JWT as issued by `Security.GenerateJwt`: subject, role and lifetime in days. */
  datatype Token = Token(sub: UserId, role: string, ttlDays: int)

  /** The position of the first user with this e-mail (`FirstOrDefault(o => o.Email == email)`). */
  function FindByEmail(us: seq<User>, email: string): (r: Option<nat>)
    ensures r.None? <==> email !in Emails(us)
    ensures r.Some? ==> r.value < |us| && us[r.value].email == email
  {
    var r := FirstIndex(us, (u: User) => u.email == email);
    assert r.None? ==> forall k :: 0 <= k < |us| ==> Emails(us)[k] != email;
    r
  }

  /** The position of the user with this id. */
  function FindById(us: seq<User>, id: UserId): (r: Option<nat>)
    ensures r.None? <==> id !in UserIds(us)
    ensures r.Some? ==> r.value < |us| && us[r.value].id == id
  {
    var r := FirstIndex(us, (u: User) => u.id == id);
    assert r.None? ==> forall k :: 0 <= k < |us| ==> UserIds(us)[k] != id;
    r
  }

  /** The position of the first organizer row of this user, active or not. */
  function FindOrganizerOf(os: seq<Organizador>, u: UserId): (r: Option<nat>)
    ensures r.None? <==> u !in OwnerIds(os)
    ensures r.Some? ==> r.value < |os| && os[r.value].userId == u
    ensures r.Some? ==> forall j :: 0 <= j < r.value ==> os[j].userId != u
  {
    var r := FirstIndex(os, (o: Organizador) => o.userId == u);
    assert r.None? ==> forall k :: 0 <= k < |os| ==> OwnerIds(os)[k] != u;
    r
  }

  /**
   * `POST /api/auth/login`: a token for the user with this e-mail when the
   * password hashes to the stored hash; the same error for an unknown e-mail
   * and for a wrong password. The token lasts 7 days when `remember` is set
   * and 1 day otherwise.
   */
  function Login(us: seq<User>, hash: string -> string, email: string, password: string, remember: bool): (r: Reply<Token>)
    ensures r.Ok? || r == BadRequest(BAD_CREDENTIALS)
    ensures r.Ok? <==> exists k :: 0 <= k < |us| && us[k].email == email && FindByEmail(us, email) == Some(k)
                                   && us[k].passwordHash == hash(password)
    ensures r.Ok? ==> r.value.role == ROLE && r.value.sub in UserIds(us)
    ensures r.Ok? ==> FindByEmail(us, email).Some? && r.value.sub == us[FindByEmail(us, email).value].id
    ensures r.Ok? ==> (r.value.ttlDays == 7 <==> remember) && (r.value.ttlDays == 1 <==> !remember)
  {
    match FindByEmail(us, email)
    case None => BadRequest(BAD_CREDENTIALS)
    case Some(k) =>
      if us[k].passwordHash != hash(password) then BadRequest(BAD_CREDENTIALS)
      else
        assert UserIds(us)[k] == us[k].id;
        Ok(Token(us[k].id, ROLE, if remember then 7 else 1))
  }

  /** With unique e-mails, login succeeds exactly for the stored e-mail and a password hashing to its hash. */
  lemma LoginIff(us: seq<User>, hash: string -> string, email: string, password: string, remember: bool)
    requires EmailsUnique(us)
    ensures Login(us, hash, email, password, remember).Ok? <==>
      exists k :: 0 <= k < |us| && us[k].email == email && us[k].passwordHash == hash(password)
  {
    if exists k :: 0 <= k < |us| && us[k].email == email && us[k].passwordHash == hash(password) {
      var k :| 0 <= k < |us| && us[k].email == email && us[k].passwordHash == hash(password);
      var f := FindByEmail(us, email).value;
      OneUserPerEmail(us, k, f);
    }
  }

  /** The claims `ReadJwtToken` yields; the signature is not part of them, it is never checked. */
  datatype Claims = Claims(sub: Option<UserId>, validTo: int)

  /**
   * `POST /api/auth/refresh`: unauthorized when the token cannot be read,
   * has expired, or has no readable subject; otherwise a new 1-day token for
   * the same subject.
   */
  function Refresh(token: Option<Claims>, now: int): (r: Reply<Token>)
    ensures r.Ok? || r.Unauthorized?
    ensures r.Ok? <==> token.Some? && token.value.validTo >= now && token.value.sub.Some?
    ensures r.Ok? ==> r.value == Token(token.value.sub.value, ROLE, 1)
  {
    if token.None? || token.value.validTo < now || token.value.sub.None? then Unauthorized
    else Ok(Token(token.value.sub.value, ROLE, 1))
  }

  /** A refreshed token is refreshable again while unexpired, for the same subject. */
  lemma RefreshKeepsSubject(u: UserId, validTo: int, now: int)
    requires validTo >= now
    ensures Refresh(Some(Claims(Some(u), validTo)), now) == Ok(Token(u, ROLE, 1))
  {
  }

  /** `UserProfileDto`. */
  datatype Profile = Profile(nome: string, email: string, contaGoogle: bool, codigo: string)

  /**
   * `GET /api/auth/profile`: the caller's name, e-mail and account kind, with
   * the join code of the caller's first organizer row, or "" without one.
   */
  function ProfileOf(us: seq<User>, os: seq<Organizador>, caller: Option<UserId>): (r: Reply<Profile>)
    ensures r.Ok? || r.Unauthorized? || r.NotFound?
    ensures r.Unauthorized? <==> caller.None?
    ensures r.NotFound? <==> caller.Some? && caller.value !in UserIds(us)
    ensures r.Ok? ==> exists k :: (0 <= k < |us| && us[k].id == caller.value
      && r.value.nome == us[k].nome && r.value.email == us[k].email && r.value.contaGoogle == us[k].contaGoogle)
    ensures r.Ok? && caller.value !in OwnerIds(os) ==> r.value.codigo == ""
    ensures r.Ok? && caller.value in OwnerIds(os) ==>
      exists i :: 0 <= i < |os| && os[i].userId == caller.value && r.value.codigo == os[i].codigo
        && forall j :: 0 <= j < i ==> os[j].userId != caller.value
  {
    if caller.None? then Unauthorized
    else match FindById(us, caller.value)
      case None => NotFound
      case Some(k) =>
        var o := FindOrganizerOf(os, caller.value);
        var codigo := if o.Some? then os[o.value].codigo else "";
        Ok(Profile(us[k].nome, us[k].email, us[k].contaGoogle, codigo))
  }

  // The password-reset token lifecycle.

  /** `recuperar-senha` on a known user: a pending token that expires 24 hours from now. */
  function WithResetToken(u: User, token: string, now: int): (r: User)
    ensures r.resetPasswordToken == Some(token) && r.resetPasswordTokenExpiry == Some(now + RESET_WINDOW)
    ensures r.(resetPasswordToken := u.resetPasswordToken, resetPasswordTokenExpiry := u.resetPasswordTokenExpiry) == u
  {
    u.(resetPasswordToken := Some(token), resetPasswordTokenExpiry := Some(now + RESET_WINDOW))
  }

  /** `redefinir-senha` on the token's user: the new password, and no pending token. */
  function Redeemed(u: User, newHash: string): (r: User)
    ensures r.passwordHash == newHash && r.resetPasswordToken.None? && r.resetPasswordTokenExpiry.None?
    ensures r.(passwordHash := u.passwordHash, resetPasswordToken := u.resetPasswordToken,
               resetPasswordTokenExpiry := u.resetPasswordTokenExpiry) == u
  {
    u.(passwordHash := newHash, resetPasswordToken := None, resetPasswordTokenExpiry := None)
  }

  /** A pending token has expired when its expiry is set and earlier than now (a null expiry never expires). */
  predicate Expired(u: User, now: int) {
    u.resetPasswordTokenExpiry.Some? && u.resetPasswordTokenExpiry.value < now
  }

  /**
   * The lookup as written: the first user whose pending token equals the
   * request's token, compared as nullable strings, so that a request without
   * a token matches a user who has none pending.
   */
  function ResetTargetAsWritten(us: seq<User>, token: Option<string>): (r: Option<nat>)
    ensures r.None? <==> token !in ResetTokens(us)
    ensures r.Some? ==> r.value < |us| && us[r.value].resetPasswordToken == token
  {
    var r := FirstIndex(us, (u: User) => u.resetPasswordToken == token);
    assert r.None? ==> forall k :: 0 <= k < |us| ==> ResetTokens(us)[k] != token;
    r
  }

  /** A request without a token takes over any user with no reset pending. */
  lemma NullTokenMatchesIdleUser(us: seq<User>, k: nat)
    requires k < |us| && us[k].resetPasswordToken.None?
    ensures ResetTargetAsWritten(us, None).Some?
    ensures us[ResetTargetAsWritten(us, None).value].resetPasswordToken.None?
  {
    assert ResetTokens(us)[k] == None;
  }

  /** The lookup as intended: only a present token finds a user, the one holding it. */
  function ResetTarget(us: seq<User>, token: Option<string>): (r: Option<nat>)
    ensures r.Some? ==> token.Some? && r.value < |us| && us[r.value].resetPasswordToken == token
    ensures r.None? <==> token.None? || token !in ResetTokens(us)
  {
    if token.None? then None else ResetTargetAsWritten(us, token)
  }

  /** With the corrected lookup, only a user with a pending reset can be reset. */
  lemma ResetNeedsPendingToken(us: seq<User>, token: Option<string>)
    requires ResetTarget(us, token).Some?
    ensures us[ResetTarget(us, token).value].resetPasswordToken.Some?
  {
  }

  /** The outcome of `redefinir-senha`: the position of the user to reset, or the rejection. */
  function Redefinir(us: seq<User>, token: Option<string>, now: int): (r: Reply<nat>)
    ensures r.Ok? || r == BadRequest(BAD_RESET)
    ensures r.Ok? <==> ResetTarget(us, token).Some? && !Expired(us[ResetTarget(us, token).value], now)
    ensures r.Ok? ==> r.value < |us| && us[r.value].resetPasswordToken == token && token.Some?
  {
    match ResetTarget(us, token)
    case None => BadRequest(BAD_RESET)
    case Some(k) => if Expired(us[k], now) then BadRequest(BAD_RESET) else Ok(k)
  }

  /**
   * A token just issued to user `k` is accepted for that user at any time up
   * to 24 hours later, provided no other user holds the same token.
   */
  lemma {:induction false} FreshTokenAccepted(us: seq<User>, k: nat, token: string, issued: int, now: int)
    requires k < |us| && ResetTokensUnique(us)
    requires Some(token) !in ResetTokens(us)
    requires now <= issued + RESET_WINDOW
    ensures var us' := us[k := WithResetToken(us[k], token, issued)];
      Redefinir(us', Some(token), now) == Ok(k)
  {
    var us' := us[k := WithResetToken(us[k], token, issued)];
    var r := ResetTarget(us', Some(token));
    assert ResetTokens(us')[k] == Some(token);
    assert forall j :: 0 <= j < |us'| && j != k ==> ResetTokens(us)[j] == us'[j].resetPasswordToken;
  }

  /** A token is single-use: once redeemed, presenting it again is rejected. */
  lemma {:induction false} SecondUseRejected(us: seq<User>, token: string, now: int, newHash: string, later: int)
    requires ResetTokensUnique(us)
    requires Redefinir(us, Some(token), now).Ok?
    ensures var k := Redefinir(us, Some(token), now).value;
      Redefinir(us[k := Redeemed(us[k], newHash)], Some(token), later) == BadRequest(BAD_RESET)
  {
    var k := Redefinir(us, Some(token), now).value;
    var us' := us[k := Redeemed(us[k], newHash)];
    forall j | 0 <= j < |us'| ensures ResetTokens(us')[j] != Some(token) {
      if j < k {
        assert us[j].resetPasswordToken != us[k].resetPasswordToken;
      } else if j > k {
        assert us[k].resetPasswordToken != us[j].resetPasswordToken;
      }
    }
  }

  /** After a password is set to `hash(p)` on user `k`, logging in with `p` gives a token for that user. */
  lemma LoginAfterPasswordSet(us: seq<User>, hash: string -> string, k: nat, u: User, p: string, remember: bool)
    requires EmailsUnique(us) && k < |us|
    requires u.email == us[k].email && u.id == us[k].id && u.passwordHash == hash(p)
    ensures Login(us[k := u], hash, u.email, p, remember).Ok?
    ensures Login(us[k := u], hash, u.email, p, remember).value.sub == u.id
  {
    var us' := us[k := u];
    assert Emails(us') == Emails(us);
    var f := FindByEmail(us', u.email).value;
    OneUserPerEmail(us', k, f);
  }
}
