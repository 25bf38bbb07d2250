/**
 * The entities of the relational store (the `Domain` folder). Rows that the
 * handlers create and overwrite as whole records are datatypes held in the
 * store's tables; `Sorteio`, whose own method changes its state, is a class.
 * Integer identities are the database's generated keys; a user's `Guid` is
 * modelled as a natural number handed out once.
 */
module Domain {
  import opened Wrappers
  import opened Seqs

  type UserId = nat

  /** The two statuses a draw takes. */
  const ABERTO := "Aberto"
  const FINALIZADO := "Finalizado"

  /** `User`: credentials and the password-reset token with its expiry (a time in seconds). */
  datatype User = User(
    id: UserId,
    nome: string,
    email: string,
    passwordHash: string,
    resetPasswordToken: Option<string>,
    resetPasswordTokenExpiry: Option<int>,
    ativo: bool,
    contaGoogle: bool,
    createdAt: int)

  /** `Organizador`: the owner scope of players, with the join code players register with. */
  datatype Organizador = Organizador(
    id: int,
    userId: UserId,
    nome: string,
    codigo: string,
    ativo: bool,
    createdAt: int)

  /** `Jogador`: `posicao` is the comma-joined tag list, or null. */
  datatype Jogador = Jogador(
    id: int,
    organizadorId: int,
    nome: string,
    posicao: Option<string>,
    observacoes: Option<string>,
    destaque: bool,
    peso: bool,
    ativo: bool,
    createdAt: int)

  /** `Time`: a team of one draw. */
  datatype Time = Time(id: int, sorteioId: int, nome: string)

  /** `TimeJogador`: membership of a player in a team. */
  datatype TimeJogador = TimeJogador(id: int, timeId: int, jogadorId: int)

  /** `Partida`: a recorded result. */
  datatype Partida = Partida(
    id: int,
    sorteioId: int,
    timeCasaId: int,
    timeVisitanteId: int,
    golsCasa: int,
    golsVisitante: int,
    status: string)

  /** The value of a `Sorteio` object's fields. */
  datatype SorteioRow = SorteioRow(
    id: int,
    organizadorId: UserId,
    nome: string,
    quantidadeTimes: int,
    status: string,
    createdAt: int)

  /** `Sorteio` (`Domain/Sorteio.cs`): a draw, created open, finalized in place. */
  class Sorteio {
    const id: int
    var organizadorId: UserId
    var nome: string
    var quantidadeTimes: int
    var status: string
    var createdAt: int

    function Row(): SorteioRow
      reads this
    {
      SorteioRow(id, organizadorId, nome, quantidadeTimes, status, createdAt)
    }

    /** A new draw is open and has no teams. */
    constructor(id: int, organizadorId: UserId, nome: string, now: int)
      ensures Row() == SorteioRow(id, organizadorId, nome, 0, ABERTO, now)
      ensures Row().status == ABERTO && Row().quantidadeTimes == 0
    {
      this.id := id;
      this.organizadorId := organizadorId;
      this.nome := nome;
      this.quantidadeTimes := 0;
      this.status := ABERTO;
      this.createdAt := now;
    }

    /** `Finalizar`: the status becomes "Finalizado"; no other field changes. */
    method Finalizar()
      modifies this
      ensures Row() == Finalized(old(Row()))
    {
      status := FINALIZADO;
    }
  }

  /** The effect of `Finalizar` on a draw's fields. */
  function Finalized(r: SorteioRow): (f: SorteioRow)
    ensures f.status == FINALIZADO
    ensures f.(status := r.status) == r
  {
    r.(status := FINALIZADO)
  }

  /** `Finalizar` is idempotent. */
  lemma FinalizedIdempotent(r: SorteioRow)
    ensures Finalized(Finalized(r)) == Finalized(r)
  {
  }

  /** The field values of a sequence of draw objects. */
  function Rows(ds: seq<Sorteio>): (rs: seq<SorteioRow>)
    reads ds
    ensures |rs| == |ds|
    ensures forall i :: 0 <= i < |ds| ==> rs[i] == ds[i].Row()
  {
    seq(|ds|, i requires 0 <= i < |ds| reads ds => ds[i].Row())
  }

  /** The whole store, as values. */
  datatype Db = Db(
    users: seq<User>,
    organizadores: seq<Organizador>,
    jogadores: seq<Jogador>,
    sorteios: seq<SorteioRow>,
    times: seq<Time>,
    timeJogadores: seq<TimeJogador>,
    partidas: seq<Partida>)

  // Key columns of each table.

  function UserIds(us: seq<User>): seq<UserId> { Map(us, (u: User) => u.id) }
  function Emails(us: seq<User>): seq<string> { Map(us, (u: User) => u.email) }
  function ResetTokens(us: seq<User>): seq<Option<string>> { Map(us, (u: User) => u.resetPasswordToken) }
  function OrganizadorIds(os: seq<Organizador>): seq<int> { Map(os, (o: Organizador) => o.id) }
  function Codes(os: seq<Organizador>): seq<string> { Map(os, (o: Organizador) => o.codigo) }
  function JogadorIds(js: seq<Jogador>): seq<int> { Map(js, (j: Jogador) => j.id) }
  function DrawIds(ds: seq<SorteioRow>): seq<int> { Map(ds, (d: SorteioRow) => d.id) }
  function TimeIds(ts: seq<Time>): seq<int> { Map(ts, (t: Time) => t.id) }
  function MembershipIds(ms: seq<TimeJogador>): seq<int> { Map(ms, (m: TimeJogador) => m.id) }
  function MembershipPairs(ms: seq<TimeJogador>): seq<(int, int)> { Map(ms, (m: TimeJogador) => (m.timeId, m.jogadorId)) }
  function PartidaIds(ps: seq<Partida>): seq<int> { Map(ps, (p: Partida) => p.id) }

  // Foreign-key columns.

  function OwnerIds(os: seq<Organizador>): seq<UserId> { Map(os, (o: Organizador) => o.userId) }
  function PlayerOwners(js: seq<Jogador>): seq<int> { Map(js, (j: Jogador) => j.organizadorId) }
  function TeamDraws(ts: seq<Time>): seq<int> { Map(ts, (t: Time) => t.sorteioId) }
  function MemberTeams(ms: seq<TimeJogador>): seq<int> { Map(ms, (m: TimeJogador) => m.timeId) }
  function MemberPlayers(ms: seq<TimeJogador>): seq<int> { Map(ms, (m: TimeJogador) => m.jogadorId) }
}
