/**
 * What the store guarantees about its tables (`Infrastructure/FutebolContext.cs`
 * and the entity mappings it applies): the unique (TimeId, JogadorId) index,
 * the home-team-differs-from-away-team check, the unique e-mail index, the
 * foreign keys; and what every handler keeps true on top of them: unique keys,
 * unique join codes, unique pending reset tokens, known draw statuses.
 */
module Constraints {
  import opened Wrappers
  import opened Seqs
  import opened Domain

  /** Unique index on `Users.Email`. */
  predicate EmailsUnique(us: seq<User>) {
    Distinct(Emails(us))
  }

  /** Unique index on `TimeJogadores (TimeId, JogadorId)`. */
  predicate MembershipsUnique(ms: seq<TimeJogador>) {
    Distinct(MembershipPairs(ms))
  }

  /** Check constraint `TimeCasaId <> TimeVisitanteId` on `Partidas`. */
  predicate SidesDiffer(ps: seq<Partida>) {
    forall i :: 0 <= i < |ps| ==> ps[i].timeCasaId != ps[i].timeVisitanteId
  }

  /** No two organizers share a join code (kept by registration and update-codigo). */
  predicate CodesUnique(os: seq<Organizador>) {
    Distinct(Codes(os))
  }

  /** No two users hold the same pending reset token. */
  predicate ResetTokensUnique(us: seq<User>) {
    forall i, j :: 0 <= i < j < |us| && us[i].resetPasswordToken.Some? ==>
      us[i].resetPasswordToken != us[j].resetPasswordToken
  }

  /** Every value of `column` occurs in `keys`: a foreign key. */
  predicate References(column: seq<int>, keys: seq<int>) {
    forall i :: 0 <= i < |column| ==> column[i] in keys
  }

  predicate KnownStatuses(ds: seq<SorteioRow>) {
    forall i :: 0 <= i < |ds| ==> ds[i].status == ABERTO || ds[i].status == FINALIZADO
  }

  /** All of the above over one state of the store. */
  predicate Consistent(db: Db) {
    && Distinct(UserIds(db.users))
    && EmailsUnique(db.users)
    && ResetTokensUnique(db.users)
    && Distinct(OrganizadorIds(db.organizadores))
    && CodesUnique(db.organizadores)
    && References(OwnerIds(db.organizadores), UserIds(db.users))
    && Distinct(JogadorIds(db.jogadores))
    && References(PlayerOwners(db.jogadores), OrganizadorIds(db.organizadores))
    && Distinct(DrawIds(db.sorteios))
    && KnownStatuses(db.sorteios)
    && Distinct(TimeIds(db.times))
    && References(TeamDraws(db.times), DrawIds(db.sorteios))
    && Distinct(MembershipIds(db.timeJogadores))
    && MembershipsUnique(db.timeJogadores)
    && References(MemberTeams(db.timeJogadores), TimeIds(db.times))
    && References(MemberPlayers(db.timeJogadores), JogadorIds(db.jogadores))
    && Distinct(PartidaIds(db.partidas))
    && SidesDiffer(db.partidas)
  }

  /** The empty store is consistent. */
  lemma EmptyConsistent()
    ensures Consistent(Db([], [], [], [], [], [], []))
  {
  }

  /** Two membership rows with the same pair cannot both be stored. */
  lemma DuplicatePairRejected(ms: seq<TimeJogador>, i: nat, j: nat)
    requires i < j < |ms|
    requires ms[i].timeId == ms[j].timeId && ms[i].jogadorId == ms[j].jogadorId
    ensures !MembershipsUnique(ms)
  {
    assert MembershipPairs(ms)[i] == MembershipPairs(ms)[j];
  }

  /** A stored match never has the same team on both sides. */
  lemma StoredMatchHasTwoTeams(ps: seq<Partida>, p: Partida)
    requires SidesDiffer(ps) && p in ps
    ensures p.timeCasaId != p.timeVisitanteId
  {
  }

  /** E-mail uniqueness: at most one user per address. */
  lemma OneUserPerEmail(us: seq<User>, i: nat, j: nat)
    requires EmailsUnique(us) && i < |us| && j < |us|
    requires us[i].email == us[j].email
    ensures i == j
  {
  }

  /** Every key is below `n`: the next value of the table's identity counter. */
  predicate Below(ids: seq<int>, n: int) {
    forall k :: 0 <= k < |ids| ==> ids[k] < n
  }

  // What each kind of change needs for the store to stay consistent.

  /** A new user: a fresh id, an e-mail no user has, no pending reset. */
  lemma {:induction false} AddUserKeeps(db: Db, u: User)
    requires Consistent(db)
    requires u.id !in UserIds(db.users) && u.email !in Emails(db.users) && u.resetPasswordToken.None?
    ensures Consistent(db.(users := db.users + [u]))
  {
    var us := db.users + [u];
    assert UserIds(us) == UserIds(db.users) + [u.id];
    assert Emails(us) == Emails(db.users) + [u.email];
    DistinctAppend(UserIds(db.users), u.id);
    DistinctAppend(Emails(db.users), u.email);
  }

  /** A new organizer: a fresh id, a code no organizer has, owned by a stored user. */
  lemma {:induction false} AddOrganizerKeeps(db: Db, o: Organizador)
    requires Consistent(db)
    requires o.id !in OrganizadorIds(db.organizadores) && o.codigo !in Codes(db.organizadores)
    requires o.userId in UserIds(db.users)
    ensures Consistent(db.(organizadores := db.organizadores + [o]))
  {
    var os := db.organizadores + [o];
    assert OrganizadorIds(os) == OrganizadorIds(db.organizadores) + [o.id];
    assert Codes(os) == Codes(db.organizadores) + [o.codigo];
    assert OwnerIds(os) == OwnerIds(db.organizadores) + [o.userId];
    DistinctAppend(OrganizadorIds(db.organizadores), o.id);
    DistinctAppend(Codes(db.organizadores), o.codigo);
  }

  /** A new player: a fresh id, under a stored organizer. */
  lemma {:induction false} AddJogadorKeeps(db: Db, j: Jogador)
    requires Consistent(db)
    requires j.id !in JogadorIds(db.jogadores) && j.organizadorId in OrganizadorIds(db.organizadores)
    ensures Consistent(db.(jogadores := db.jogadores + [j]))
  {
    var js := db.jogadores + [j];
    assert JogadorIds(js) == JogadorIds(db.jogadores) + [j.id];
    assert PlayerOwners(js) == PlayerOwners(db.jogadores) + [j.organizadorId];
    DistinctAppend(JogadorIds(db.jogadores), j.id);
  }

  /**
   * A user row overwritten in place, keeping its id and e-mail; its pending
   * reset token is cleared, kept, or one that no user holds.
   */
  lemma {:induction false} UpdateUserKeeps(db: Db, k: nat, u: User)
    requires Consistent(db) && k < |db.users|
    requires u.id == db.users[k].id && u.email == db.users[k].email
    requires u.resetPasswordToken.None? || u.resetPasswordToken == db.users[k].resetPasswordToken
             || u.resetPasswordToken !in ResetTokens(db.users)
    ensures Consistent(db.(users := db.users[k := u]))
  {
    var us := db.users[k := u];
    assert UserIds(us) == UserIds(db.users);
    assert Emails(us) == Emails(db.users);
    forall i, j | 0 <= i < j < |us| && us[i].resetPasswordToken.Some?
      ensures us[i].resetPasswordToken != us[j].resetPasswordToken
    {
      if i == k {
        assert ResetTokens(db.users)[j] == us[j].resetPasswordToken;
      } else if j == k {
        assert ResetTokens(db.users)[i] == us[i].resetPasswordToken;
      }
    }
  }

  /**
   * An organizer row overwritten in place, keeping its id and owner; its new
   * code is held by no other organizer.
   */
  lemma {:induction false} UpdateOrganizerKeeps(db: Db, k: nat, o: Organizador)
    requires Consistent(db) && k < |db.organizadores|
    requires o.id == db.organizadores[k].id && o.userId == db.organizadores[k].userId
    requires forall i :: 0 <= i < |db.organizadores| && i != k ==> db.organizadores[i].codigo != o.codigo
    ensures Consistent(db.(organizadores := db.organizadores[k := o]))
  {
    var os := db.organizadores[k := o];
    assert OrganizadorIds(os) == OrganizadorIds(db.organizadores);
    assert OwnerIds(os) == OwnerIds(db.organizadores);
    forall i, j | 0 <= i < j < |os| ensures Codes(os)[i] != Codes(os)[j] {
      if i != k && j != k {
        assert Codes(os)[i] == Codes(db.organizadores)[i] && Codes(os)[j] == Codes(db.organizadores)[j];
      }
    }
  }

  /** A player row overwritten in place, keeping its id and organizer. */
  lemma {:induction false} UpdateJogadorKeeps(db: Db, k: nat, j: Jogador)
    requires Consistent(db) && k < |db.jogadores|
    requires j.id == db.jogadores[k].id && j.organizadorId == db.jogadores[k].organizadorId
    ensures Consistent(db.(jogadores := db.jogadores[k := j]))
  {
    var js := db.jogadores[k := j];
    assert JogadorIds(js) == JogadorIds(db.jogadores);
    assert PlayerOwners(js) == PlayerOwners(db.jogadores);
  }

  /** A new draw: a fresh id and a known status. */
  lemma {:induction false} AddDrawKeeps(db: Db, d: SorteioRow)
    requires Consistent(db)
    requires d.id !in DrawIds(db.sorteios) && (d.status == ABERTO || d.status == FINALIZADO)
    ensures Consistent(db.(sorteios := db.sorteios + [d]))
  {
    var ds := db.sorteios + [d];
    assert DrawIds(ds) == DrawIds(db.sorteios) + [d.id];
    DistinctAppend(DrawIds(db.sorteios), d.id);
  }

  /** A draw row overwritten in place, keeping its id, with a known status. */
  lemma {:induction false} UpdateDrawKeeps(db: Db, k: nat, d: SorteioRow)
    requires Consistent(db) && k < |db.sorteios|
    requires d.id == db.sorteios[k].id && (d.status == ABERTO || d.status == FINALIZADO)
    ensures Consistent(db.(sorteios := db.sorteios[k := d]))
  {
    assert DrawIds(db.sorteios[k := d]) == DrawIds(db.sorteios);
  }

  /** A column that references `keys` still does after rows are added, when the new rows reference `keys + more`. */
  lemma ReferencesConcat(a: seq<int>, b: seq<int>, keys: seq<int>, more: seq<int>)
    requires References(a, keys) && References(b, keys + more)
    ensures References(a + b, keys + more)
  {
    forall i | 0 <= i < |a + b| ensures (a + b)[i] in keys + more {
      if i < |a| {
        assert (a + b)[i] == a[i];
      } else {
        assert (a + b)[i] == b[i - |a|];
      }
    }
  }

  /** New teams: fresh distinct ids, of stored draws. */
  lemma {:induction false} AddTimesKeeps(db: Db, ts: seq<Time>)
    requires Consistent(db)
    requires Distinct(TimeIds(db.times + ts)) && References(TeamDraws(ts), DrawIds(db.sorteios))
    ensures Consistent(db.(times := db.times + ts))
  {
    var ts' := db.times + ts;
    assert TeamDraws(ts') == TeamDraws(db.times) + TeamDraws(ts);
    assert DrawIds(db.sorteios) + [] == DrawIds(db.sorteios);
    ReferencesConcat(TeamDraws(db.times), TeamDraws(ts), DrawIds(db.sorteios), []);
    assert TimeIds(ts') == TimeIds(db.times) + TimeIds(ts);
    assert MemberTeams(db.timeJogadores) + [] == MemberTeams(db.timeJogadores);
    ReferencesConcat(MemberTeams(db.timeJogadores), [], TimeIds(db.times), TimeIds(ts));
  }

  /** New memberships: fresh distinct ids, of stored teams and players, and no pair twice. */
  lemma {:induction false} AddMembersKeeps(db: Db, ms: seq<TimeJogador>)
    requires Consistent(db)
    requires Distinct(MembershipIds(db.timeJogadores + ms)) && MembershipsUnique(db.timeJogadores + ms)
    requires References(MemberTeams(ms), TimeIds(db.times))
    requires References(MemberPlayers(ms), JogadorIds(db.jogadores))
    ensures Consistent(db.(timeJogadores := db.timeJogadores + ms))
  {
    MemberRefsKeep(db.timeJogadores, ms, TimeIds(db.times), JogadorIds(db.jogadores));
  }

  lemma MemberRefsKeep(old_: seq<TimeJogador>, ms: seq<TimeJogador>, timeIds: seq<int>, playerIds: seq<int>)
    requires References(MemberTeams(old_), timeIds) && References(MemberTeams(ms), timeIds)
    requires References(MemberPlayers(old_), playerIds) && References(MemberPlayers(ms), playerIds)
    ensures References(MemberTeams(old_ + ms), timeIds)
    ensures References(MemberPlayers(old_ + ms), playerIds)
  {
    assert MemberTeams(old_ + ms) == MemberTeams(old_) + MemberTeams(ms);
    assert timeIds + [] == timeIds;
    ReferencesConcat(MemberTeams(old_), MemberTeams(ms), timeIds, []);
    assert MemberPlayers(old_ + ms) == MemberPlayers(old_) + MemberPlayers(ms);
    assert playerIds + [] == playerIds;
    ReferencesConcat(MemberPlayers(old_), MemberPlayers(ms), playerIds, []);
  }

  /** A new match: a fresh id and two different teams. */
  lemma {:induction false} AddPartidaKeeps(db: Db, p: Partida)
    requires Consistent(db)
    requires p.id !in PartidaIds(db.partidas) && p.timeCasaId != p.timeVisitanteId
    ensures Consistent(db.(partidas := db.partidas + [p]))
  {
    var ps := db.partidas + [p];
    assert PartidaIds(ps) == PartidaIds(db.partidas) + [p.id];
    DistinctAppend(PartidaIds(db.partidas), p.id);
  }
}
