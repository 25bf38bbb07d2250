/**
 * The match results of `Endpoints/Partidas.cs`: the row a result request
 * inserts and the listing of a draw's results. The insert itself is
 * `Store.FutebolStore.RegistrarResultado`.
 */
module Partidas {
  import opened Seqs
  import opened Domain

  /** `RegistrarResultadoDto`. */
  datatype ResultInput = ResultInput(
    timeCasa: int,
    golsCasa: int,
    golsVisitante: int,
    timeVisitante: int,
    sorteioId: int)

  /** The row a result request inserts: every field as submitted, status "Finalizado". */
  function NewPartida(id: int, d: ResultInput): (p: Partida)
    ensures p.status == FINALIZADO
    ensures p.id == id && p.sorteioId == d.sorteioId
    ensures p.timeCasaId == d.timeCasa && p.timeVisitanteId == d.timeVisitante
    ensures p.golsCasa == d.golsCasa && p.golsVisitante == d.golsVisitante
  {
    Partida(id, d.sorteioId, d.timeCasa, d.timeVisitante, d.golsCasa, d.golsVisitante, FINALIZADO)
  }

  /** `PartidaDto`. */
  datatype PartidaDto = PartidaDto(
    id: int,
    sorteioId: int,
    timeCasaId: int,
    timeVisitanteId: int,
    golsCasa: int,
    golsVisitante: int)

  function ToPartidaDto(p: Partida): PartidaDto {
    PartidaDto(p.id, p.sorteioId, p.timeCasaId, p.timeVisitanteId, p.golsCasa, p.golsVisitante)
  }

  /** The rows of one draw, projected, in table order. */
  function DrawResults(ps: seq<Partida>, sorteioId: int): seq<PartidaDto> {
    Map(Filter(ps, (p: Partida) => p.sorteioId == sorteioId), ToPartidaDto)
  }

  /** `GET /api/partidas/sorteio/{sorteioId}`: the results of one draw, in table order. */
  function ListResults(ps: seq<Partida>, sorteioId: int): (r: seq<PartidaDto>)
    ensures |r| <= |ps|
    ensures forall p :: p in ps ==> (ToPartidaDto(p) in r <==> p.sorteioId == sorteioId)
    ensures forall x :: x in r <==> exists p :: p in ps && p.sorteioId == sorteioId && x == ToPartidaDto(p)
  {
    var kept := Filter(ps, (p: Partida) => p.sorteioId == sorteioId);
    var dtos := DrawResults(ps, sorteioId);
    assert forall k :: 0 <= k < |kept| ==> dtos[k] == ToPartidaDto(kept[k]) && kept[k] in kept;
    assert forall p :: p in kept ==> exists k :: 0 <= k < |kept| && kept[k] == p;
    dtos
  }

  /**
   * Recording then listing: the recorded result is appended to its draw's
   * listing with the submitted teams and goals, and no other draw's listing
   * changes.
   */
  lemma {:induction false} ListAfterRecord(ps: seq<Partida>, id: int, d: ResultInput, s: int)
    ensures ListResults(ps + [NewPartida(id, d)], s) ==
      if s == d.sorteioId
      then ListResults(ps, s) + [PartidaDto(id, d.sorteioId, d.timeCasa, d.timeVisitante, d.golsCasa, d.golsVisitante)]
      else ListResults(ps, s)
  {
    DrawResultsAfterRecord(ps, NewPartida(id, d), s);
  }

  lemma {:induction false} DrawResultsAfterRecord(ps: seq<Partida>, row: Partida, s: int)
    ensures DrawResults(ps + [row], s) ==
      if s == row.sorteioId then DrawResults(ps, s) + [ToPartidaDto(row)] else DrawResults(ps, s)
  {
    var p := (x: Partida) => x.sorteioId == s;
    var added: seq<Partida> := if s == row.sorteioId then [row] else [];
    FilterAppend(ps, [row], p);
    if s == row.sorteioId {
      FilterAll([row], p);
    } else {
      FilterNone([row], p);
    }
    assert Filter(ps + [row], p) == Filter(ps, p) + added;
    MapAppend(Filter(ps, p), added, ToPartidaDto);
  }
}
