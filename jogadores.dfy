/**
 * The roster queries of `Endpoints/Jogadores.cs`: which organizer a caller
 * acts for, how a player row is built and overwritten, and the listing with
 * its filters and its reading of the stored positions. The handlers that
 * write rows are methods of `Store.FutebolStore`.
 */
module Jogadores {
  import opened Wrappers
  import opened Seqs
  import opened DotNetText
  import opened Positions
  import opened Domain
  import opened Replies

  /** An organizer row that gives `u` its scope: owned by `u` and active. */
  predicate ActiveFor(o: Organizador, u: UserId) {
    o.userId == u && o.ativo
  }

  /**
   * The organizer a caller acts for: the id of the first organizer row owned
   * by the caller that is active, or none when the caller's id could not be
   * read or no such row exists.
   */
  function Scope(orgs: seq<Organizador>, caller: Option<UserId>): (r: Option<int>)
    ensures r.None? <==> caller.None? || forall k :: 0 <= k < |orgs| ==> !ActiveFor(orgs[k], caller.value)
    ensures r.Some? ==> exists k :: 0 <= k < |orgs| && ActiveFor(orgs[k], caller.value) && orgs[k].id == r.value
  {
    if caller.None? then None
    else
      var i := FirstIndex(orgs, (o: Organizador) => ActiveFor(o, caller.value));
      if i.None? then None else Some(orgs[i.value].id)
  }

  /** The fields of a player request (`RegisterJogadorDto`, `AtualizarJogadorDto`). */
  datatype JogadorInput = JogadorInput(
    nome: string,
    posicoes: Option<seq<string>>,
    observacoes: Option<string>,
    destaque: bool,
    peso: bool)

  /** A player created under organizer `org`: active, with its positions joined by ",". */
  function NewJogador(id: int, org: int, d: JogadorInput, now: int): (j: Jogador)
    ensures j.id == id && j.organizadorId == org && j.ativo && j.createdAt == now
    ensures j.nome == d.nome && j.observacoes == d.observacoes && j.destaque == d.destaque && j.peso == d.peso
    ensures j.posicao.None? <==> d.posicoes.None?
    ensures d.posicoes.Some? ==> j.posicao == Some(Join(d.posicoes.value))
  {
    Jogador(id, org, d.nome, Column(d.posicoes), d.observacoes, d.destaque, d.peso, true, now)
  }

  /**
   * A player overwritten by an update request: name, notes and flags are
   * replaced, the positions only when the request carries a list; identity,
   * owner, status and creation time are kept.
   */
  function Updated(j: Jogador, d: JogadorInput): (r: Jogador)
    ensures r.id == j.id && r.organizadorId == j.organizadorId && r.ativo == j.ativo && r.createdAt == j.createdAt
    ensures r.nome == d.nome && r.observacoes == d.observacoes && r.destaque == d.destaque && r.peso == d.peso
    ensures d.posicoes.None? ==> r.posicao == j.posicao
    ensures d.posicoes.Some? ==> r.posicao == Some(Join(d.posicoes.value))
  {
    j.(nome := d.nome,
       posicao := if d.posicoes.Some? then Column(d.posicoes) else j.posicao,
       observacoes := d.observacoes,
       destaque := d.destaque,
       peso := d.peso)
  }

  /** The status endpoint: only `ativo` changes. */
  function WithStatus(j: Jogador, ativo: bool): (r: Jogador)
    ensures r.ativo == ativo
    ensures r.(ativo := j.ativo) == j
  {
    j.(ativo := ativo)
  }

  /** The row a caller may change: the first with this id owned by the caller's organizer. */
  function FindOwned(js: seq<Jogador>, id: int, org: int): (r: Option<nat>)
    ensures r.None? <==> forall k :: 0 <= k < |js| ==> !(js[k].id == id && js[k].organizadorId == org)
    ensures r.Some? ==> r.value < |js| && js[r.value].id == id && js[r.value].organizadorId == org
  {
    FirstIndex(js, (j: Jogador) => j.id == id && j.organizadorId == org)
  }

  /** `JogadorListItemDto`. */
  datatype JogadorListItem = JogadorListItem(
    id: int,
    nome: string,
    posicoes: seq<string>,
    observacoes: string,
    destaque: bool,
    peso: bool,
    ativo: bool,
    createdAt: int)

  /**
   * A player as listed: positions read back with trimming and empty entries
   * dropped (none when the column is null), notes as "" when null. The
   * positions are the column's parts, each trimmed, in order, without those
   * that trim to "".
   */
  function ListItem(j: Jogador): (r: JogadorListItem)
    ensures r.id == j.id && r.nome == j.nome && r.ativo == j.ativo
    ensures r.destaque == j.destaque && r.peso == j.peso && r.createdAt == j.createdAt
    ensures j.observacoes.Some? ==> r.observacoes == j.observacoes.value
    ensures j.observacoes.None? ==> r.observacoes == ""
    ensures j.posicao.None? ==> r.posicoes == []
    ensures j.posicao.Some? ==> r.posicoes == Filter(Map(Split(j.posicao.value), Trim), NonEmpty)
    ensures forall k :: 0 <= k < |r.posicoes| ==> WellFormedTag(r.posicoes[k])
  {
    var posicoes := if j.posicao.Some? then SplitEntries(j.posicao.value) else [];
    SplitEntriesWellFormedAll(j.posicao);
    CleanOfColumn(j.posicao);
    JogadorListItem(j.id, j.nome, posicoes, j.observacoes.GetOr(""), j.destaque, j.peso, j.ativo, j.createdAt)
  }

  lemma CleanOfColumn(p: Option<string>)
    ensures p.Some? ==> SplitEntries(p.value) == Filter(Map(Split(p.value), Trim), NonEmpty)
  {
    if p.Some? {
      CleanIsTrimThenFilter(Split(p.value));
    }
  }

  lemma SplitEntriesWellFormedAll(p: Option<string>)
    ensures p.Some? ==> forall k :: 0 <= k < |SplitEntries(p.value)| ==> WellFormedTag(SplitEntries(p.value)[k])
  {
    if p.Some? {
      SplitEntriesWellFormed(p.value);
    }
  }

  /**
   * The listing filter: the caller's organizer, then the status when one is
   * given, then the name containing `q` when `q` is not blank.
   */
  predicate Matches(j: Jogador, org: int, ativo: Option<bool>, q: Option<string>) {
    && j.organizadorId == org
    && (ativo.Some? ==> j.ativo == ativo.value)
    && (!IsNullOrWhiteSpace(q) ==> Contains(j.nome, q.value))
  }

  /** `GET /api/jogadores`: the matching players of the caller's organizer, in table order. */
  function ListJogadores(js: seq<Jogador>, orgs: seq<Organizador>, caller: Option<UserId>,
                         q: Option<string>, ativo: Option<bool>): (r: Reply<seq<JogadorListItem>>)
    ensures r.Ok? || r.Unauthorized?
    ensures r.Unauthorized? <==> Scope(orgs, caller).None?
    ensures r.Ok? ==> |r.value| <= |js|
    ensures r.Ok? ==> forall k :: 0 <= k < |r.value| ==>
      exists j :: j in js && Matches(j, Scope(orgs, caller).value, ativo, q) && r.value[k] == ListItem(j)
  {
    var org := Scope(orgs, caller);
    if org.None? then Unauthorized
    else
      var kept := Filter(js, (j: Jogador) => Matches(j, org.value, ativo, q));
      var items := Map(kept, ListItem);
      assert forall k :: 0 <= k < |items| ==> kept[k] in kept && items[k] == ListItem(kept[k]);
      Ok(items)
  }

  /**
   * With unique player ids, a player is listed exactly when it passes the
   * filter: players of other organizers, of the other status, or whose name
   * does not contain a non-blank `q` are never listed, and every other one is.
   */
  lemma {:induction false} ListedIff(js: seq<Jogador>, orgs: seq<Organizador>, u: UserId,
                                     q: Option<string>, ativo: Option<bool>, j: Jogador)
    requires Distinct(JogadorIds(js)) && j in js
    requires Scope(orgs, Some(u)).Some?
    ensures var r := ListJogadores(js, orgs, Some(u), q, ativo);
      r.Ok? && (ListItem(j) in r.value <==> Matches(j, Scope(orgs, Some(u)).value, ativo, q))
  {
    var org := Scope(orgs, Some(u)).value;
    var p := (x: Jogador) => Matches(x, org, ativo, q);
    var kept := Filter(js, p);
    var items := Map(kept, ListItem);
    assert ListJogadores(js, orgs, Some(u), q, ativo) == Ok(items);
    if p(j) {
      assert j in kept;
      var i :| 0 <= i < |kept| && kept[i] == j;
      assert items[i] == ListItem(j);
    }
    if ListItem(j) in items {
      var i :| 0 <= i < |items| && items[i] == ListItem(j);
      var x := kept[i];
      assert x in js && p(x);
      var a :| 0 <= a < |js| && js[a] == x;
      var b :| 0 <= b < |js| && js[b] == j;
      assert JogadorIds(js)[a] == JogadorIds(js)[b];
      assert a == b;
    }
  }

  /**
   * Round trip of the positions column: a player created or updated with
   * well-formed tags (non-empty, comma-free, already trimmed) lists exactly
   * those tags; one created without a list lists none.
   */
  lemma {:induction false} ListedPositions(id: int, org: int, d: JogadorInput, now: int)
    requires d.posicoes.Some? ==> forall k :: 0 <= k < |d.posicoes.value| ==> WellFormedTag(d.posicoes.value[k])
    ensures ListItem(NewJogador(id, org, d, now)).posicoes == d.posicoes.GetOr([])
  {
    if d.posicoes.Some? {
      SplitEntriesJoin(d.posicoes.value);
    }
  }

  /**
   * The round trip for any comma-free tags, trimmed or not, as a create
   * request may carry them: the list shows each tag trimmed, in order, and
   * drops the tags that trim to "".
   */
  lemma {:induction false} ListedPositionsTrimmed(id: int, org: int, d: JogadorInput, now: int)
    requires d.posicoes.Some?
    requires forall k :: 0 <= k < |d.posicoes.value| ==> Separator !in d.posicoes.value[k]
    ensures ListItem(NewJogador(id, org, d, now)).posicoes == Filter(Map(d.posicoes.value, Trim), NonEmpty)
  {
    var tags := d.posicoes.value;
    if tags == [] {
      assert Split("") == [""];
      TrimFixpoint("");
    } else {
      SplitJoin(tags);
      CleanIsTrimThenFilter(tags);
    }
  }

  /** The same round trip through an update that carries a list. */
  lemma {:induction false} UpdatedPositions(j: Jogador, d: JogadorInput)
    requires d.posicoes.Some?
    requires forall k :: 0 <= k < |d.posicoes.value| ==> WellFormedTag(d.posicoes.value[k])
    ensures ListItem(Updated(j, d)).posicoes == d.posicoes.value
  {
    SplitEntriesJoin(d.posicoes.value);
  }

  /** An update without a list lists the same positions as before. */
  lemma UpdateKeepsPositions(j: Jogador, d: JogadorInput)
    requires d.posicoes.None?
    ensures ListItem(Updated(j, d)).posicoes == ListItem(j).posicoes
  {
  }
}
