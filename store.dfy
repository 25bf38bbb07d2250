/**
 * The database context (`Infrastructure/FutebolContext.cs`) with the request
 * handlers of the `Endpoints` folder that write to it. The tables are fields
 * of one object that the handlers reassign; draws are `Sorteio` objects, so
 * finalizing one changes that object in place. Each table has the counter
 * that hands out its next key.
 *
 * Every handler keeps `Valid()`: the constraints of `Constraints.Consistent`
 * and the counters above every stored key. Each handler states its whole new
 * state, its reply, and the condition under which each error is returned.
 * Handlers that only read are the functions of the other modules, applied
 * to `Tables()`.
 */
module Store {
  import opened Wrappers
  import opened Seqs
  import opened DotNetText
  import opened Domain
  import opened Constraints
  import opened Replies
  import opened Jogadores
  import opened Sorteios
  import opened Partidas
  import opened JoinCodes
  import opened Auth

  /** `OrganizadorResponseDto`. */
  datatype OrganizadorView = OrganizadorView(id: int, nome: string, codigo: string, ativo: bool)

  /** What Google's token verification yields when it accepts a token. */
  datatype GooglePayload = GooglePayload(email: string, name: string)

  const EMAIL_TAKEN := "Email já cadastrado."
  const CODE_REQUIRED := "Código do organizador é obrigatório."
  const CODE_UNKNOWN := "Código de organizador inválido."
  const CLIENT_ID_REQUIRED := "Client ID do Google é obrigatório."
  const GOOGLE_TOKEN_INVALID := "Token do Google inválido."
  const CURRENT_PASSWORD_REQUIRED := "Senha atual é obrigatória."
  const CURRENT_PASSWORD_WRONG := "Senha atual inválida."
  const NEW_PASSWORD_REQUIRED := "Nova senha é obrigatória."
  const NAME_REQUIRED := "Nome é obrigatório."
  const NEW_CODE_REQUIRED := "Código é obrigatório."
  const CODE_IN_USE := "Este código já está em uso."
  const RECOVERY_UNKNOWN := "Se o e-mail existir, você receberá um link de recuperação."
  const RECOVERY_SENT := "E-mail de recuperação enviado com sucesso."

  /** The user row a registration inserts: active, no pending reset. */
  function NewUser(id: UserId, nome: string, email: string, passwordHash: string, google: bool, now: int): (u: User)
    ensures u.id == id && u.nome == nome && u.email == email && u.passwordHash == passwordHash
    ensures u.resetPasswordToken.None? && u.resetPasswordTokenExpiry.None?
    ensures u.ativo && u.contaGoogle == google && u.createdAt == now
  {
    User(id, nome, email, passwordHash, None, None, true, google, now)
  }

  /** `change-password` on the caller's row: the new hash, and the account no longer counts as a Google one. */
  function PasswordChanged(u: User, newHash: string): (r: User)
    ensures r.passwordHash == newHash && !r.contaGoogle
    ensures r.(passwordHash := u.passwordHash, contaGoogle := u.contaGoogle) == u
  {
    u.(passwordHash := newHash, contaGoogle := false)
  }

  /** The organizer a join code designates: the first one holding exactly that code. */
  function FindByCode(os: seq<Organizador>, codigo: string): (r: Option<nat>)
    ensures r.None? <==> codigo !in Codes(os)
    ensures r.Some? ==> r.value < |os| && os[r.value].codigo == codigo
  {
    var r := FirstIndex(os, (o: Organizador) => o.codigo == codigo);
    assert r.None? ==> forall k :: 0 <= k < |os| ==> Codes(os)[k] != codigo;
    r
  }

  /** With unique codes, a code designates the organizer holding it and no other. */
  lemma CodeFindsItsOrganizer(os: seq<Organizador>, k: nat)
    requires CodesUnique(os) && k < |os|
    ensures FindByCode(os, os[k].codigo) == Some(k)
  {
    var f := FindByCode(os, os[k].codigo);
    assert Codes(os)[k] == os[k].codigo;
    assert Codes(os)[f.value] == Codes(os)[k];
  }

  /** Whether the recovery reply tells a known e-mail from an unknown one. */
  lemma RecoveryRepliesDiffer()
    ensures RECOVERY_UNKNOWN != RECOVERY_SENT
  {
    assert |RECOVERY_UNKNOWN| != |RECOVERY_SENT|;
  }

  /** The next key of each table. */
  datatype Counters = Counters(
    user: nat, organizador: int, jogador: int, sorteio: int, time: int, timeJogador: int, partida: int)

  /** A consistent store whose every key is below its table's counter. */
  ghost predicate Fits(db: Db, c: Counters) {
    && Consistent(db)
    && Below(UserIds(db.users), c.user)
    && Below(OrganizadorIds(db.organizadores), c.organizador)
    && Below(JogadorIds(db.jogadores), c.jogador)
    && Below(DrawIds(db.sorteios), c.sorteio)
    && Below(TimeIds(db.times), c.time)
    && Below(MembershipIds(db.timeJogadores), c.timeJogador)
    && Below(PartidaIds(db.partidas), c.partida)
  }

  /** Committing an accepted submission to draw `k` keeps the store fitting its counters. */
  lemma {:induction false} CommitKeeps(db: Db, c: Counters, k: nat, teams: seq<TeamSubmission>)
    requires Fits(db, c) && k < |db.sorteios|
    requires TeamsDistinct(teams) && TeamsKnown(teams, JogadorIds(db.jogadores))
    ensures Fits(db.(sorteios := db.sorteios[k := Resized(db.sorteios[k], |teams|)],
                     times := db.times + TeamRows(c.time, db.sorteios[k].id, teams),
                     timeJogadores := db.timeJogadores + RosterRows(c.time, c.timeJogador, teams)),
                 c.(time := c.time + |teams|, timeJogador := c.timeJogador + MemberCount(teams)))
  {
    AddTeamsKeeps(db, k, c.time, c.timeJogador, teams);
  }

  class FutebolStore {
    /** `Security.HashSenha`. */
    const hash: string -> string

    var users: seq<User>
    var organizadores: seq<Organizador>
    var jogadores: seq<Jogador>
    var sorteios: seq<Sorteio>
    var times: seq<Time>
    var timeJogadores: seq<TimeJogador>
    var partidas: seq<Partida>

    var nextUserId: nat
    var nextOrganizadorId: int
    var nextJogadorId: int
    var nextSorteioId: int
    var nextTimeId: int
    var nextTimeJogadorId: int
    var nextPartidaId: int

    /** The whole store as a value. */
    function Tables(): Db
      reads this, sorteios
    {
      Db(users, organizadores, jogadores, Rows(sorteios), times, timeJogadores, partidas)
    }

    /** The identity counters. */
    function Next(): Counters
      reads this
    {
      Counters(nextUserId, nextOrganizadorId, nextJogadorId, nextSorteioId, nextTimeId, nextTimeJogadorId, nextPartidaId)
    }

    ghost predicate Valid()
      reads this, sorteios
    {
      Fits(Tables(), Next())
    }

    /** An empty database. */
    constructor(hash: string -> string)
      ensures Valid()
      ensures this.hash == hash
      ensures Tables() == Db([], [], [], [], [], [], [])
    {
      this.hash := hash;
      users, organizadores, jogadores, sorteios := [], [], [], [];
      times, timeJogadores, partidas := [], [], [];
      nextUserId := 0;
      nextOrganizadorId, nextJogadorId, nextSorteioId := 1, 1, 1;
      nextTimeId, nextTimeJogadorId, nextPartidaId := 1, 1, 1;
      new;
      EmptyConsistent();
    }

    /** Inserts a user row with the next user id, a fresh e-mail and no pending reset. */
    method InsertUser(u: User)
      requires Valid()
      requires u.id == nextUserId && u.email !in Emails(users) && u.resetPasswordToken.None?
      modifies this
      ensures Valid()
      ensures Tables() == old(Tables()).(users := old(users) + [u])
      ensures nextOrganizadorId == old(nextOrganizadorId)
    {
      MapAppend(users, [u], (x: User) => x.id);
      AddUserKeeps(Tables(), u);
      users := users + [u];
      nextUserId := nextUserId + 1;
    }

    /** Inserts an organizer row with the next organizer id, a fresh code and a stored owner. */
    method InsertOrganizer(o: Organizador)
      requires Valid()
      requires o.id == nextOrganizadorId && o.codigo !in Codes(organizadores) && o.userId in UserIds(users)
      modifies this
      ensures Valid()
      ensures Tables() == old(Tables()).(organizadores := old(organizadores) + [o])
    {
      MapAppend(organizadores, [o], (x: Organizador) => x.id);
      AddOrganizerKeeps(Tables(), o);
      organizadores := organizadores + [o];
      nextOrganizadorId := nextOrganizadorId + 1;
    }

    /**
     * Inserts a user row with the next user id, and an organizer row owned
     * by it with the code given.
     */
    method AddAccount(nome: string, email: string, passwordHash: string, google: bool, codigo: string, now: int)
      returns (o: Organizador)
      requires Valid()
      requires email !in Emails(users) && codigo !in Codes(organizadores)
      modifies this
      ensures Valid()
      ensures o == Organizador(old(nextOrganizadorId), old(nextUserId), nome, codigo, true, now)
      ensures Tables() == old(Tables()).(
        users := old(users) + [NewUser(old(nextUserId), nome, email, passwordHash, google, now)],
        organizadores := old(organizadores) + [o])
    {
      var u := NewUser(nextUserId, nome, email, passwordHash, google, now);
      InsertUser(u);
      o := Organizador(nextOrganizadorId, u.id, nome, codigo, true, now);
      assert UserIds(users)[|users| - 1] == u.id;
      InsertOrganizer(o);
    }

    /** Overwrites user row `k` with a row of the same id and e-mail whose reset token is none, kept, or new. */
    method ReplaceUser(k: nat, u: User)
      requires Valid() && k < |users|
      requires u.id == users[k].id && u.email == users[k].email
      requires u.resetPasswordToken.None? || u.resetPasswordToken == users[k].resetPasswordToken
               || u.resetPasswordToken !in ResetTokens(users)
      modifies this
      ensures Valid()
      ensures Tables() == old(Tables()).(users := old(users)[k := u])
    {
      assert UserIds(users[k := u]) == UserIds(users);
      UpdateUserKeeps(Tables(), k, u);
      users := users[k := u];
    }

    /** Overwrites organizer row `k` with a row of the same id and owner whose code no other organizer holds. */
    method ReplaceOrganizer(k: nat, o: Organizador)
      requires Valid() && k < |organizadores|
      requires o.id == organizadores[k].id && o.userId == organizadores[k].userId
      requires forall i :: 0 <= i < |organizadores| && i != k ==> organizadores[i].codigo != o.codigo
      modifies this
      ensures Valid()
      ensures Tables() == old(Tables()).(organizadores := old(organizadores)[k := o])
    {
      assert OrganizadorIds(organizadores[k := o]) == OrganizadorIds(organizadores);
      UpdateOrganizerKeeps(Tables(), k, o);
      organizadores := organizadores[k := o];
    }

    /**
     * `POST /api/auth/register/organizador`: rejected when the e-mail is
     * taken; otherwise a user with the hashed password and an active
     * organizer with the first free code the GUID stream yields.
     */
    method RegisterOrganizador(nome: string, email: string, password: string, now: int, guids: seq<string>)
      returns (r: Reply<OrganizadorView>)
      requires Valid()
      requires forall i :: 0 <= i < |guids| ==> IsGuidN(guids[i])
      requires exists i :: 0 <= i < |guids| && CodeOf(guids[i]) !in Codes(organizadores)
      modifies this
      ensures Valid()
      ensures r.Ok? || r == BadRequest(EMAIL_TAKEN)
      ensures r.BadRequest? <==> email in Emails(old(users))
      ensures r.BadRequest? ==> Tables() == old(Tables())
      ensures r.Ok? ==>
        && r.value.id == old(nextOrganizadorId) && r.value.nome == nome && r.value.ativo
        && |r.value.codigo| == 8 && r.value.codigo !in Codes(old(organizadores))
        && (exists k :: 0 <= k < |guids| && r.value.codigo == CodeOf(guids[k])
              && forall i :: 0 <= i < k ==> CodeOf(guids[i]) in Codes(old(organizadores)))
        && Tables() == old(Tables()).(
             users := old(users) + [NewUser(old(nextUserId), nome, email, hash(password), false, now)],
             organizadores := old(organizadores)
               + [Organizador(old(nextOrganizadorId), old(nextUserId), nome, r.value.codigo, true, now)])
    {
      if email in Emails(users) {
        return BadRequest(EMAIL_TAKEN);
      }
      var k, code := FirstUnusedCode(Codes(organizadores), guids);
      var o := AddAccount(nome, email, hash(password), false, code, now);
      r := Ok(OrganizadorView(o.id, o.nome, o.codigo, o.ativo));
    }

    /**
     * `POST /api/auth/register/jogador`: a blank code and a code no organizer
     * holds are rejected; otherwise an active player of the organizer holding
     * the code, whether or not that organizer is active.
     */
    method RegisterJogador(d: JogadorInput, codigo: Option<string>, now: int) returns (r: Reply<Jogador>)
      requires Valid()
      modifies this
      ensures Valid()
      ensures r.Created? || r == BadRequest(CODE_REQUIRED) || r == BadRequest(CODE_UNKNOWN)
      ensures r == BadRequest(CODE_REQUIRED) <==> IsNullOrWhiteSpace(codigo)
      ensures r == BadRequest(CODE_UNKNOWN) <==> !IsNullOrWhiteSpace(codigo) && codigo.value !in Codes(old(organizadores))
      ensures r.BadRequest? ==> Tables() == old(Tables())
      ensures r.Created? ==>
        && (exists k :: 0 <= k < |organizadores| && organizadores[k].codigo == codigo.value
              && r.value == NewJogador(old(nextJogadorId), organizadores[k].id, d, now))
        && Tables() == old(Tables()).(jogadores := old(jogadores) + [r.value])
    {
      if IsNullOrWhiteSpace(codigo) {
        return BadRequest(CODE_REQUIRED);
      }
      var k := FindByCode(organizadores, codigo.value);
      if k.None? {
        return BadRequest(CODE_UNKNOWN);
      }
      var j := NewJogador(nextJogadorId, organizadores[k.value].id, d, now);
      InsertJogador(j);
      r := Created(j);
    }

    /** Inserts a player row with the next player id under a stored organizer. */
    method InsertJogador(j: Jogador)
      requires Valid()
      requires j.id == nextJogadorId && j.organizadorId in OrganizadorIds(organizadores)
      modifies this
      ensures Valid()
      ensures Tables() == old(Tables()).(jogadores := old(jogadores) + [j])
    {
      MapAppend(jogadores, [j], (x: Jogador) => x.id);
      AddJogadorKeeps(Tables(), j);
      jogadores := jogadores + [j];
      nextJogadorId := nextJogadorId + 1;
    }

    /**
     * `POST /api/auth/google`: a missing client id and a token Google rejects
     * are refused; otherwise, on the first login with that e-mail, a Google
     * user with a random password and an organizer with the first free code,
     * and in every case a 1-day token for the user with that e-mail.
     */
    method GoogleLogin(clientId: Option<string>, payload: Option<GooglePayload>, randomPassword: string,
                       now: int, guids: seq<string>) returns (r: Reply<Token>)
      requires Valid()
      requires forall i :: 0 <= i < |guids| ==> IsGuidN(guids[i])
      requires exists i :: 0 <= i < |guids| && CodeOf(guids[i]) !in Codes(organizadores)
      modifies this
      ensures Valid()
      ensures r.Ok? || r == BadRequest(CLIENT_ID_REQUIRED) || r == BadRequest(GOOGLE_TOKEN_INVALID)
      ensures r == BadRequest(CLIENT_ID_REQUIRED) <==> IsNullOrEmpty(clientId)
      ensures r == BadRequest(GOOGLE_TOKEN_INVALID) <==> !IsNullOrEmpty(clientId) && payload.None?
      ensures r.Ok? ==> r.value.role == ROLE && r.value.ttlDays == 1
      ensures r.Ok? ==> exists k :: 0 <= k < |users| && users[k].email == payload.value.email && users[k].id == r.value.sub
      ensures (r.Ok? && payload.value.email in Emails(old(users))) || r.BadRequest? ==> Tables() == old(Tables())
      ensures r.Ok? && payload.value.email !in Emails(old(users)) ==>
        && r.value.sub == old(nextUserId)
        && exists code :: code !in Codes(old(organizadores)) && |code| == 8
             && Tables() == old(Tables()).(
                  users := old(users) + [NewUser(old(nextUserId), payload.value.name, payload.value.email,
                                                 hash(randomPassword), true, now)],
                  organizadores := old(organizadores)
                    + [Organizador(old(nextOrganizadorId), old(nextUserId), payload.value.name, code, true, now)])
    {
      if IsNullOrEmpty(clientId) {
        return BadRequest(CLIENT_ID_REQUIRED);
      }
      if payload.None? {
        return BadRequest(GOOGLE_TOKEN_INVALID);
      }
      var p := payload.value;
      var k := FindByEmail(users, p.email);
      if k.None? {
        var _, code := FirstUnusedCode(Codes(organizadores), guids);
        var o := AddAccount(p.name, p.email, hash(randomPassword), true, code, now);
        assert users[|users| - 1].email == p.email;
        r := Ok(Token(o.userId, ROLE, 1));
      } else {
        r := Ok(Token(users[k.value].id, ROLE, 1));
      }
    }

    /**
     * `POST /api/auth/change-password`: the caller must be a stored user; an
     * account that is not a Google one must give its current password; the
     * new password must not be empty. The new hash is stored and the account
     * stops counting as a Google one.
     */
    method ChangePassword(caller: Option<UserId>, senhaAtual: Option<string>, novaSenha: Option<string>)
      returns (r: Reply<()>)
      requires Valid()
      modifies this
      ensures Valid()
      ensures r.Ok? || r.Unauthorized? || r.NotFound? || r == BadRequest(CURRENT_PASSWORD_REQUIRED)
        || r == BadRequest(CURRENT_PASSWORD_WRONG) || r == BadRequest(NEW_PASSWORD_REQUIRED)
      ensures r.Unauthorized? <==> caller.None?
      ensures r.NotFound? <==> caller.Some? && caller.value !in UserIds(old(users))
      ensures !r.Ok? ==> Tables() == old(Tables())
      ensures caller.Some? && caller.value in UserIds(old(users)) ==>
        var k := FindById(old(users), caller.value).value;
        var u := old(users)[k];
        && (r == BadRequest(CURRENT_PASSWORD_REQUIRED) <==> !u.contaGoogle && IsNullOrEmpty(senhaAtual))
        && (r == BadRequest(CURRENT_PASSWORD_WRONG) <==>
              !u.contaGoogle && !IsNullOrEmpty(senhaAtual) && u.passwordHash != hash(senhaAtual.value))
        && (r == BadRequest(NEW_PASSWORD_REQUIRED) <==>
              (u.contaGoogle || (!IsNullOrEmpty(senhaAtual) && u.passwordHash == hash(senhaAtual.value)))
              && IsNullOrEmpty(novaSenha))
        && (r.Ok? ==> Tables() == old(Tables()).(users := old(users)[k := PasswordChanged(u, hash(novaSenha.value))]))
    {
      if caller.None? {
        return Unauthorized;
      }
      var k := FindById(users, caller.value);
      if k.None? {
        return NotFound;
      }
      var u := users[k.value];
      if !u.contaGoogle {
        if IsNullOrEmpty(senhaAtual) {
          return BadRequest(CURRENT_PASSWORD_REQUIRED);
        }
        if u.passwordHash != hash(senhaAtual.value) {
          return BadRequest(CURRENT_PASSWORD_WRONG);
        }
      }
      if IsNullOrEmpty(novaSenha) {
        return BadRequest(NEW_PASSWORD_REQUIRED);
      }
      ReplaceUser(k.value, PasswordChanged(u, hash(novaSenha.value)));
      r := Ok(());
    }

    /**
     * `POST /api/auth/update-name`: the caller must be a stored user and the
     * name must not be empty; the user's name and that of the user's first
     * organizer row, when there is one, become the new name.
     */
    method UpdateName(caller: Option<UserId>, nome: Option<string>) returns (r: Reply<()>)
      requires Valid()
      modifies this
      ensures Valid()
      ensures r.Ok? || r.Unauthorized? || r.NotFound? || r == BadRequest(NAME_REQUIRED)
      ensures r.Unauthorized? <==> caller.None?
      ensures r.NotFound? <==> caller.Some? && caller.value !in UserIds(old(users))
      ensures r.BadRequest? <==> caller.Some? && caller.value in UserIds(old(users)) && IsNullOrEmpty(nome)
      ensures !r.Ok? ==> Tables() == old(Tables())
      ensures r.Ok? ==>
        var k := FindById(old(users), caller.value).value;
        var o := FindOrganizerOf(old(organizadores), caller.value);
        Tables() == old(Tables()).(
          users := old(users)[k := old(users)[k].(nome := nome.value)],
          organizadores := if o.None? then old(organizadores)
                           else old(organizadores)[o.value := old(organizadores)[o.value].(nome := nome.value)])
    {
      if caller.None? {
        return Unauthorized;
      }
      var k := FindById(users, caller.value);
      if k.None? {
        return NotFound;
      }
      if IsNullOrEmpty(nome) {
        return BadRequest(NAME_REQUIRED);
      }
      ReplaceUser(k.value, users[k.value].(nome := nome.value));
      var o := FindOrganizerOf(organizadores, caller.value);
      if o.Some? {
        forall i | 0 <= i < |organizadores| && i != o.value
          ensures organizadores[i].codigo != organizadores[o.value].codigo
        {
          assert Codes(organizadores)[i] != Codes(organizadores)[o.value];
        }
        ReplaceOrganizer(o.value, organizadores[o.value].(nome := nome.value));
      }
      r := Ok(());
    }

    /**
     * `POST /api/auth/update-codigo`: the code must not be empty, the caller
     * must own an organizer row, and no other organizer may hold the code;
     * the caller's first organizer row then takes it.
     */
    method UpdateCodigo(caller: Option<UserId>, codigo: Option<string>) returns (r: Reply<()>)
      requires Valid()
      modifies this
      ensures Valid()
      ensures r.Ok? || r.Unauthorized? || r.NotFound? || r == BadRequest(NEW_CODE_REQUIRED) || r == BadRequest(CODE_IN_USE)
      ensures r.Unauthorized? <==> caller.None?
      ensures r == BadRequest(NEW_CODE_REQUIRED) <==> caller.Some? && IsNullOrEmpty(codigo)
      ensures r.NotFound? <==> caller.Some? && !IsNullOrEmpty(codigo) && caller.value !in OwnerIds(old(organizadores))
      ensures !r.Ok? ==> Tables() == old(Tables())
      ensures caller.Some? && !IsNullOrEmpty(codigo) && caller.value in OwnerIds(old(organizadores)) ==>
        var k := FindOrganizerOf(old(organizadores), caller.value).value;
        && (r == BadRequest(CODE_IN_USE) <==>
              exists i :: 0 <= i < |old(organizadores)| && old(organizadores)[i].codigo == codigo.value
                            && old(organizadores)[i].id != old(organizadores)[k].id)
        && (r.Ok? ==> Tables() == old(Tables()).(
              organizadores := old(organizadores)[k := old(organizadores)[k].(codigo := codigo.value)]))
      ensures r.Ok? ==> exists k :: 0 <= k < |organizadores| && organizadores[k].userId == caller.value
                                    && FindByCode(organizadores, codigo.value) == Some(k)
    {
      if caller.None? {
        return Unauthorized;
      }
      if IsNullOrEmpty(codigo) {
        return BadRequest(NEW_CODE_REQUIRED);
      }
      var k := FindOrganizerOf(organizadores, caller.value);
      if k.None? {
        return NotFound;
      }
      var c := codigo.value;
      var mine := organizadores[k.value];
      if exists i :: 0 <= i < |organizadores| && organizadores[i].codigo == c && organizadores[i].id != mine.id {
        return BadRequest(CODE_IN_USE);
      }
      forall i | 0 <= i < |organizadores| && i != k.value ensures organizadores[i].codigo != c {
        assert OrganizadorIds(organizadores)[i] != OrganizadorIds(organizadores)[k.value];
      }
      ReplaceOrganizer(k.value, mine.(codigo := c));
      CodeFindsItsOrganizer(organizadores, k.value);
      r := Ok(());
    }

    /**
     * `POST /api/auth/recuperar-senha`: always a success reply. For a stored
     * e-mail the first user with it gets `token` (a new GUID, held by no
     * user) pending for 24 hours, and the reply says the e-mail was sent,
     * even when sending fails; for an unknown e-mail nothing changes.
     */
    method RecuperarSenha(email: string, token: string, now: int) returns (r: Reply<string>)
      requires Valid()
      requires Some(token) !in ResetTokens(users)
      modifies this
      ensures Valid()
      ensures r.Ok?
      ensures r.value == RECOVERY_UNKNOWN <==> email !in Emails(old(users))
      ensures r.value == RECOVERY_SENT <==> email in Emails(old(users))
      ensures email !in Emails(old(users)) ==> Tables() == old(Tables())
      ensures email in Emails(old(users)) ==>
        var k := FindByEmail(old(users), email).value;
        Tables() == old(Tables()).(users := old(users)[k := WithResetToken(old(users)[k], token, now)])
    {
      RecoveryRepliesDiffer();
      var k := FindByEmail(users, email);
      if k.None? {
        return Ok(RECOVERY_UNKNOWN);
      }
      ReplaceUser(k.value, WithResetToken(users[k.value], token, now));
      r := Ok(RECOVERY_SENT);
    }

    /**
     * `POST /api/auth/redefinir-senha`: a token no user holds, or one whose
     * expiry has passed, is rejected; otherwise its user gets the new
     * password and the token is cleared. A request without a token is
     * rejected (see `Auth.ResetTarget`).
     */
    method RedefinirSenha(token: Option<string>, novaSenha: string, now: int) returns (r: Reply<()>)
      requires Valid()
      modifies this
      ensures Valid()
      ensures r.Ok? || r == BadRequest(BAD_RESET)
      ensures r.Ok? <==> Redefinir(old(users), token, now).Ok?
      ensures !r.Ok? ==> Tables() == old(Tables())
      ensures r.Ok? ==>
        var k := Redefinir(old(users), token, now).value;
        Tables() == old(Tables()).(users := old(users)[k := Redeemed(old(users)[k], hash(novaSenha))])
    {
      var outcome := Redefinir(users, token, now);
      if !outcome.Ok? {
        return BadRequest(BAD_RESET);
      }
      var k := outcome.value;
      ReplaceUser(k, Redeemed(users[k], hash(novaSenha)));
      r := Ok(());
    }

    /** `POST /api/jogadores`: an active player of the caller's organizer. */
    method CreateJogador(caller: Option<UserId>, d: JogadorInput, now: int) returns (r: Reply<Jogador>)
      requires Valid()
      modifies this
      ensures Valid()
      ensures r.Created? || r.Unauthorized?
      ensures r.Unauthorized? <==> Scope(old(organizadores), caller).None?
      ensures r.Unauthorized? ==> Tables() == old(Tables())
      ensures r.Created? ==>
        && r.value == NewJogador(old(nextJogadorId), Scope(old(organizadores), caller).value, d, now)
        && Tables() == old(Tables()).(jogadores := old(jogadores) + [r.value])
    {
      var org := Scope(organizadores, caller);
      if org.None? {
        return Unauthorized;
      }
      var j := NewJogador(nextJogadorId, org.value, d, now);
      ghost var i :| 0 <= i < |organizadores| && ActiveFor(organizadores[i], caller.value) && organizadores[i].id == org.value;
      assert OrganizadorIds(organizadores)[i] == org.value;
      InsertJogador(j);
      r := Created(j);
    }

    /**
     * `PUT /api/jogadores/{id}`: the caller's organizer's player with that id
     * is overwritten as `Jogadores.Updated` says.
     */
    method UpdateJogador(caller: Option<UserId>, id: int, d: JogadorInput) returns (r: Reply<int>)
      requires Valid()
      modifies this
      ensures Valid()
      ensures r.Ok? || r.Unauthorized? || r.NotFound?
      ensures r.Unauthorized? <==> Scope(old(organizadores), caller).None?
      ensures r.NotFound? <==> Scope(old(organizadores), caller).Some?
                               && FindOwned(old(jogadores), id, Scope(old(organizadores), caller).value).None?
      ensures !r.Ok? ==> Tables() == old(Tables())
      ensures r.Ok? ==>
        var k := FindOwned(old(jogadores), id, Scope(old(organizadores), caller).value).value;
        r.value == id && Tables() == old(Tables()).(jogadores := old(jogadores)[k := Updated(old(jogadores)[k], d)])
    {
      var org := Scope(organizadores, caller);
      if org.None? {
        return Unauthorized;
      }
      var k := FindOwned(jogadores, id, org.value);
      if k.None? {
        return NotFound;
      }
      var j := Updated(jogadores[k.value], d);
      ReplaceJogador(k.value, j);
      r := Ok(id);
    }

    /**
     * `PUT /api/jogadores/{id}/status`: the caller's organizer's player
     * with that id takes the given status.
     */
    method SetJogadorStatus(caller: Option<UserId>, id: int, ativo: bool) returns (r: Reply<(int, bool)>)
      requires Valid()
      modifies this
      ensures Valid()
      ensures r.Ok? || r.Unauthorized? || r.NotFound?
      ensures r.Unauthorized? <==> Scope(old(organizadores), caller).None?
      ensures r.NotFound? <==> Scope(old(organizadores), caller).Some?
                               && FindOwned(old(jogadores), id, Scope(old(organizadores), caller).value).None?
      ensures !r.Ok? ==> Tables() == old(Tables())
      ensures r.Ok? ==>
        var k := FindOwned(old(jogadores), id, Scope(old(organizadores), caller).value).value;
        r.value == (id, ativo) && Tables() == old(Tables()).(jogadores := old(jogadores)[k := WithStatus(old(jogadores)[k], ativo)])
    {
      var org := Scope(organizadores, caller);
      if org.None? {
        return Unauthorized;
      }
      var k := FindOwned(jogadores, id, org.value);
      if k.None? {
        return NotFound;
      }
      ReplaceJogador(k.value, WithStatus(jogadores[k.value], ativo));
      r := Ok((id, ativo));
    }

    /** Overwrites player row `k` with a row of the same id and organizer. */
    method ReplaceJogador(k: nat, j: Jogador)
      requires Valid() && k < |jogadores|
      requires j.id == jogadores[k].id && j.organizadorId == jogadores[k].organizadorId
      modifies this
      ensures Valid()
      ensures Tables() == old(Tables()).(jogadores := old(jogadores)[k := j])
    {
      assert JogadorIds(jogadores[k := j]) == JogadorIds(jogadores);
      UpdateJogadorKeeps(Tables(), k, j);
      jogadores := jogadores[k := j];
    }

    /** `POST /api/sorteios`: an open draw of the caller, with no teams; its id is the reply. */
    method CreateSorteio(caller: Option<UserId>, nome: string, now: int) returns (r: Reply<int>)
      requires Valid()
      modifies this
      ensures Valid()
      ensures r.Created? || r.Unauthorized?
      ensures r.Unauthorized? <==> caller.None?
      ensures r.Unauthorized? ==> Tables() == old(Tables())
      ensures r.Created? ==>
        && r.value == old(nextSorteioId)
        && Tables() == old(Tables()).(sorteios := old(Tables()).sorteios
                                         + [SorteioRow(r.value, caller.value, nome, 0, ABERTO, now)])
    {
      if caller.None? {
        return Unauthorized;
      }
      var s := new Sorteio(nextSorteioId, caller.value, nome, now);
      var rows := Rows(sorteios);
      MapAppend(rows, [s.Row()], (d: SorteioRow) => d.id);
      AddDrawKeeps(Tables(), s.Row());
      sorteios := sorteios + [s];
      assert Rows(sorteios) == rows + [s.Row()];
      nextSorteioId := nextSorteioId + 1;
      r := Created(s.id);
    }

    /**
     * `POST /api/sorteios/{id}/times`: fails when no draw has the id. The
     * nested loops build one team row per submitted team and one membership
     * row per listed player id; the store refuses the whole submission when
     * a team lists a player twice (the unique index) or an id no player has
     * (the foreign key). Otherwise the rows are stored, the draw's team count
     * becomes the number of teams submitted, and the reply lists the new teams.
     */
    method AddTeams(id: int, teams: seq<TeamSubmission>) returns (r: Reply<seq<TimeDto>>)
      requires Valid()
      modifies this, sorteios
      ensures Valid()
      ensures r.Ok? || r.Fault? || r.StoreRejected?
      ensures r.Fault? <==> id !in DrawIds(old(Tables()).sorteios)
      ensures r.StoreRejected? <==> id in DrawIds(old(Tables()).sorteios)
                                    && !(TeamsDistinct(teams) && TeamsKnown(teams, JogadorIds(old(jogadores))))
      ensures !r.Ok? ==> Tables() == old(Tables())
      ensures r.Ok? ==>
        var k := DrawIndex(old(Tables()).sorteios, id).value;
        && Tables() == old(Tables()).(
             sorteios := old(Tables()).sorteios[k := Resized(old(Tables()).sorteios[k], |teams|)],
             times := old(times) + TeamRows(old(nextTimeId), id, teams),
             timeJogadores := old(timeJogadores) + RosterRows(old(nextTimeId), old(nextTimeJogadorId), teams))
        && r.value == Map(TeamRows(old(nextTimeId), id, teams), ToTimeDto)
    {
      var k := DrawIndex(Rows(sorteios), id);
      if k.None? {
        return Fault;
      }
      var addedTimes, addedRows, created, nextT, nextR := BuildRows(nextTimeId, nextTimeJogadorId, id, teams);
      AcceptedIff(Tables(), nextTimeId, nextTimeJogadorId, teams);
      if !(MembershipsUnique(timeJogadores + addedRows) && References(MemberPlayers(addedRows), JogadorIds(jogadores))) {
        return StoreRejected;
      }
      CommitTeams(k.value, teams, addedTimes, addedRows);
      r := Ok(created);
    }

    /**
     * Stores the rows of an accepted submission to draw `k` and sets the
     * draw's team count to the number of teams.
     */
    method CommitTeams(k: nat, teams: seq<TeamSubmission>, addedTimes: seq<Time>, addedRows: seq<TimeJogador>)
      requires Valid() && k < |sorteios|
      requires TeamsDistinct(teams) && TeamsKnown(teams, JogadorIds(jogadores))
      requires addedTimes == TeamRows(nextTimeId, sorteios[k].id, teams)
      requires addedRows == RosterRows(nextTimeId, nextTimeJogadorId, teams)
      modifies this, sorteios[k]
      ensures Valid()
      ensures Tables() == old(Tables()).(
        sorteios := old(Tables()).sorteios[k := Resized(old(Tables()).sorteios[k], |teams|)],
        times := old(times) + addedTimes,
        timeJogadores := old(timeJogadores) + addedRows)
    {
      ghost var db := Tables();
      assert db.sorteios[k].id == sorteios[k].id;
      CommitKeeps(db, Next(), k, teams);
      ResizeDraw(k, |teams|);
      times := times + addedTimes;
      timeJogadores := timeJogadores + addedRows;
      nextTimeId := nextTimeId + |teams|;
      nextTimeJogadorId := nextTimeJogadorId + MemberCount(teams);
      assert Tables() == db.(sorteios := db.sorteios[k := Resized(db.sorteios[k], |teams|)],
                             times := db.times + addedTimes,
                             timeJogadores := db.timeJogadores + addedRows);
    }

    /** Sets the team count of draw `k`; no other field of any draw changes. */
    method ResizeDraw(k: nat, n: int)
      requires k < |sorteios|
      requires Distinct(DrawIds(Rows(sorteios)))
      modifies sorteios[k]
      ensures Rows(sorteios) == old(Rows(sorteios))[k := Resized(old(Rows(sorteios))[k], n)]
    {
      DistinctObjects(k);
      sorteios[k].quantidadeTimes := n;
    }

    /** Distinct draw ids make the draw objects distinct. */
    lemma DistinctObjects(k: nat)
      requires k < |sorteios| && Distinct(DrawIds(Rows(sorteios)))
      ensures forall i :: 0 <= i < |sorteios| && i != k ==> sorteios[i] != sorteios[k]
    {
      forall i | 0 <= i < |sorteios| && i != k ensures sorteios[i] != sorteios[k] {
        assert DrawIds(Rows(sorteios))[i] == sorteios[i].id;
        assert DrawIds(Rows(sorteios))[k] == sorteios[k].id;
      }
    }

    /**
     * `POST /api/sorteios/{id}/finalizar`: fails when no draw has the id;
     * otherwise that draw is finalized, in place.
     */
    method FinalizarSorteio(id: int) returns (r: Reply<()>)
      requires Valid()
      modifies sorteios
      ensures Valid()
      ensures r.Ok? || r.Fault?
      ensures r.Fault? <==> id !in DrawIds(old(Tables()).sorteios)
      ensures r.Fault? ==> Tables() == old(Tables())
      ensures r.Ok? ==>
        var k := DrawIndex(old(Tables()).sorteios, id).value;
        Tables() == old(Tables()).(sorteios := old(Tables()).sorteios[k := Finalized(old(Tables()).sorteios[k])])
    {
      var k := DrawIndex(Rows(sorteios), id);
      if k.None? {
        return Fault;
      }
      ghost var rows := Rows(sorteios);
      UpdateDrawKeeps(Tables(), k.value, Finalized(rows[k.value]));
      DistinctObjects(k.value);
      sorteios[k.value].Finalizar();
      assert Rows(sorteios) == rows[k.value := Finalized(rows[k.value])];
      assert DrawIds(Rows(sorteios)) == DrawIds(rows);
      r := Ok(());
    }

    /**
     * `POST /api/partidas`: the store refuses a result whose home and away
     * teams are the same (the check constraint); otherwise the result is
     * stored as finalized.
     */
    method RegistrarResultado(d: ResultInput) returns (r: Reply<()>)
      requires Valid()
      modifies this
      ensures Valid()
      ensures r.NoContent? || r.StoreRejected?
      ensures r.StoreRejected? <==> d.timeCasa == d.timeVisitante
      ensures r.StoreRejected? ==> Tables() == old(Tables())
      ensures r.NoContent? ==> Tables() == old(Tables()).(partidas := old(partidas) + [NewPartida(old(nextPartidaId), d)])
    {
      if d.timeCasa == d.timeVisitante {
        return StoreRejected;
      }
      var p := NewPartida(nextPartidaId, d);
      MapAppend(partidas, [p], (x: Partida) => x.id);
      AddPartidaKeeps(Tables(), p);
      partidas := partidas + [p];
      nextPartidaId := nextPartidaId + 1;
      r := NoContent;
    }
  }

  /**
   * The nested loops of `POST /api/sorteios/{id}/times`: one team row per
   * submitted team, with consecutive ids, and after each one a membership
   * row per listed player id, with consecutive ids; the reply lists the
   * teams as created. Also yields the next free id of each table.
   */
  method BuildRows(firstTimeId: int, firstRowId: int, sorteioId: int, teams: seq<TeamSubmission>)
    returns (addedTimes: seq<Time>, addedRows: seq<TimeJogador>, created: seq<TimeDto>, nextT: int, nextR: int)
    ensures addedTimes == TeamRows(firstTimeId, sorteioId, teams)
    ensures addedRows == RosterRows(firstTimeId, firstRowId, teams)
    ensures created == Map(addedTimes, ToTimeDto)
    ensures nextT == firstTimeId + |teams| && nextR == firstRowId + MemberCount(teams)
  {
    addedTimes, addedRows, created := [], [], [];
    nextT, nextR := firstTimeId, firstRowId;
    var i := 0;
    while i < |teams|
      invariant 0 <= i <= |teams|
      invariant addedTimes == TeamRows(firstTimeId, sorteioId, teams[..i])
      invariant addedRows == RosterRows(firstTimeId, firstRowId, teams[..i])
      invariant created == Map(addedTimes, ToTimeDto)
      invariant nextT == firstTimeId + i
      invariant nextR == firstRowId + MemberCount(teams[..i])
    {
      var time := Time(nextT, sorteioId, teams[i].nome);
      nextT := nextT + 1;
      var rows, next := BuildMembers(time.id, nextR, teams[i].jogadorIds);
      addedRows := addedRows + rows;
      nextR := next;
      TeamsStep(teams, i, firstTimeId, sorteioId, firstRowId);
      MapAppend(addedTimes, [time], ToTimeDto);
      assert Map([time], ToTimeDto) == [ToTimeDto(time)];
      addedTimes := addedTimes + [time];
      created := created + [ToTimeDto(time)];
      i := i + 1;
    }
    assert teams[..i] == teams;
  }

  /** The inner loop: one membership row of team `timeId` per player id, with consecutive ids from `firstRowId`. */
  method BuildMembers(timeId: int, firstRowId: int, ids: seq<int>) returns (rows: seq<TimeJogador>, next: int)
    ensures rows == MemberRows(timeId, firstRowId, ids)
    ensures next == firstRowId + |ids|
  {
    rows, next := [], firstRowId;
    var j := 0;
    while j < |ids|
      invariant 0 <= j <= |ids|
      invariant rows == MemberRows(timeId, firstRowId, ids[..j])
      invariant next == firstRowId + j
    {
      assert MemberRows(timeId, firstRowId, ids[..j + 1]) == rows + [TimeJogador(next, timeId, ids[j])];
      rows := rows + [TimeJogador(next, timeId, ids[j])];
      next := next + 1;
      j := j + 1;
    }
    assert ids[..j] == ids;
  }

  /** One more team: its row, its membership rows and its player count follow those of the teams before it. */
  lemma TeamsStep(teams: seq<TeamSubmission>, i: nat, f: int, s: int, r: int)
    requires i < |teams|
    ensures TeamRows(f, s, teams[..i + 1]) == TeamRows(f, s, teams[..i]) + [Time(f + i, s, teams[i].nome)]
    ensures RosterRows(f, r, teams[..i + 1])
      == RosterRows(f, r, teams[..i]) + MemberRows(f + i, r + MemberCount(teams[..i]), teams[i].jogadorIds)
    ensures MemberCount(teams[..i + 1]) == MemberCount(teams[..i]) + |teams[i].jogadorIds|
  {
    assert teams[..i + 1][..i] == teams[..i];
  }
}
