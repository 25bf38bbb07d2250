/**
 * The rows and queries of `Endpoints/Sorteio.cs`: the Time and TimeJogador
 * rows that adding teams inserts, the team and roster listings, and the list
 * of a caller's draws. The handlers that write rows are methods of
 * `Store.FutebolStore`.
 */
module Sorteios {
  import opened Wrappers
  import opened Seqs
  import opened Positions
  import opened Domain
  import opened Constraints
  import opened Replies

  /** One entry of `AdicionarMultiplosTimesDto.times`. */
  datatype TeamSubmission = TeamSubmission(nome: string, jogadorIds: seq<int>)

  /** `TimeDto`. */
  datatype TimeDto = TimeDto(id: int, sorteioId: int, nome: string)

  function ToTimeDto(t: Time): TimeDto {
    TimeDto(t.id, t.sorteioId, t.nome)
  }

  /** The Time rows for `teams`, one per entry in order, with ids from `firstId` up. */
  function TeamRows(firstId: int, sorteioId: int, teams: seq<TeamSubmission>): (ts: seq<Time>)
    ensures |ts| == |teams|
    ensures forall k :: 0 <= k < |ts| ==> ts[k] == Time(firstId + k, sorteioId, teams[k].nome)
  {
    seq(|teams|, k requires 0 <= k < |teams| => Time(firstId + k, sorteioId, teams[k].nome))
  }

  /** The membership rows of one team, one per listed player id in order. */
  function MemberRows(timeId: int, firstRowId: int, ids: seq<int>): (ms: seq<TimeJogador>)
    ensures |ms| == |ids|
    ensures forall k :: 0 <= k < |ms| ==> ms[k] == TimeJogador(firstRowId + k, timeId, ids[k])
  {
    seq(|ids|, k requires 0 <= k < |ids| => TimeJogador(firstRowId + k, timeId, ids[k]))
  }

  /** The number of player ids over all teams. */
  function MemberCount(teams: seq<TeamSubmission>): nat {
    if teams == [] then 0
    else MemberCount(teams[..|teams| - 1]) + |teams[|teams| - 1].jogadorIds|
  }

  /**
   * The membership rows of all teams, in the order the nested loops add them:
   * the k-th team's rows carry time id `firstTimeId + k`.
   */
  function RosterRows(firstTimeId: int, firstRowId: int, teams: seq<TeamSubmission>): (ms: seq<TimeJogador>)
    ensures |ms| == MemberCount(teams)
  {
    if teams == [] then []
    else
      var n := |teams| - 1;
      RosterRows(firstTimeId, firstRowId, teams[..n])
        + MemberRows(firstTimeId + n, firstRowId + MemberCount(teams[..n]), teams[n].jogadorIds)
  }

  /** The player ids of the rows of team `timeId`, in table order. */
  function PlayersOfTeam(ms: seq<TimeJogador>, timeId: int): seq<int> {
    if ms == [] then []
    else (if ms[0].timeId == timeId then [ms[0].jogadorId] else []) + PlayersOfTeam(ms[1..], timeId)
  }

  lemma {:induction false} PlayersOfTeamAppend(a: seq<TimeJogador>, b: seq<TimeJogador>, timeId: int)
    ensures PlayersOfTeam(a + b, timeId) == PlayersOfTeam(a, timeId) + PlayersOfTeam(b, timeId)
  {
    if a == [] {
      assert a + b == b;
    } else {
      var head := if a[0].timeId == timeId then [a[0].jogadorId] else [];
      assert (a + b)[0] == a[0] && (a + b)[1..] == a[1..] + b;
      PlayersOfTeamAppend(a[1..], b, timeId);
      calc {
        PlayersOfTeam(a + b, timeId);
        head + PlayersOfTeam(a[1..] + b, timeId);
        head + (PlayersOfTeam(a[1..], timeId) + PlayersOfTeam(b, timeId));
        (head + PlayersOfTeam(a[1..], timeId)) + PlayersOfTeam(b, timeId);
      }
    }
  }

  lemma {:induction false} PlayersOfOtherTeam(ms: seq<TimeJogador>, timeId: int)
    requires forall k :: 0 <= k < |ms| ==> ms[k].timeId != timeId
    ensures PlayersOfTeam(ms, timeId) == []
  {
    if ms != [] {
      assert forall k :: 0 <= k < |ms[1..]| ==> ms[1..][k] == ms[k + 1];
      PlayersOfOtherTeam(ms[1..], timeId);
    }
  }

  lemma {:induction false} PlayersOfOneTeam(timeId: int, firstRowId: int, ids: seq<int>)
    ensures PlayersOfTeam(MemberRows(timeId, firstRowId, ids), timeId) == ids
    decreases |ids|
  {
    if ids != [] {
      var ms := MemberRows(timeId, firstRowId, ids);
      assert ms[1..] == MemberRows(timeId, firstRowId + 1, ids[1..]);
      PlayersOfOneTeam(timeId, firstRowId + 1, ids[1..]);
      assert [ids[0]] + ids[1..] == ids;
    }
  }

  /** The player ids of the rows of team `timeId` are those of its rows in the table, in order. */
  lemma {:induction false} PlayersOfTeamFilter(ms: seq<TimeJogador>, timeId: int)
    ensures MemberPlayers(Filter(ms, (m: TimeJogador) => m.timeId == timeId)) == PlayersOfTeam(ms, timeId)
  {
    var p := (m: TimeJogador) => m.timeId == timeId;
    if ms != [] {
      PlayersOfTeamFilter(ms[1..], timeId);
      var head := if p(ms[0]) then [ms[0]] else [];
      assert Filter(ms, p) == head + Filter(ms[1..], p);
      MapAppend(head, Filter(ms[1..], p), (m: TimeJogador) => m.jogadorId);
    }
  }

  /** The rows of all teams: those of all but the last team, then the last team's. */
  lemma RosterRowsSplit(firstTimeId: int, firstRowId: int, teams: seq<TeamSubmission>)
    requires teams != []
    ensures var n := |teams| - 1;
      RosterRows(firstTimeId, firstRowId, teams)
        == RosterRows(firstTimeId, firstRowId, teams[..n])
           + MemberRows(firstTimeId + n, firstRowId + MemberCount(teams[..n]), teams[n].jogadorIds)
    ensures var front := RosterRows(firstTimeId, firstRowId, teams[..|teams| - 1]);
      forall i :: 0 <= i < |front| ==> front[i].timeId < firstTimeId + |teams| - 1
  {
    RosterRowsTeams(firstTimeId, firstRowId, teams[..|teams| - 1]);
  }

  /** Every row of the first `|teams|` teams carries a time id in `[firstTimeId, firstTimeId + |teams|)`. */
  lemma {:induction false} RosterRowsTeams(firstTimeId: int, firstRowId: int, teams: seq<TeamSubmission>)
    ensures forall k :: 0 <= k < |RosterRows(firstTimeId, firstRowId, teams)| ==>
      firstTimeId <= RosterRows(firstTimeId, firstRowId, teams)[k].timeId < firstTimeId + |teams|
  {
    if teams != [] {
      RosterRowsTeams(firstTimeId, firstRowId, teams[..|teams| - 1]);
    }
  }

  /**
   * Adding teams inserts, for the k-th submitted team, exactly one membership
   * row per listed player id, in order, with that team's id; rows that were
   * there before belong to older teams and add nothing.
   */
  lemma {:induction false} RosterOfNewTeam(old_: seq<TimeJogador>, firstTimeId: int, firstRowId: int,
                                           teams: seq<TeamSubmission>, k: nat)
    requires k < |teams|
    requires forall i :: 0 <= i < |old_| ==> old_[i].timeId < firstTimeId
    ensures PlayersOfTeam(old_ + RosterRows(firstTimeId, firstRowId, teams), firstTimeId + k) == teams[k].jogadorIds
  {
    PlayersOfTeamAppend(old_, RosterRows(firstTimeId, firstRowId, teams), firstTimeId + k);
    PlayersOfOtherTeam(old_, firstTimeId + k);
    RosterOfTeam(firstTimeId, firstRowId, teams, k);
  }

  lemma {:induction false} RosterOfTeam(firstTimeId: int, firstRowId: int, teams: seq<TeamSubmission>, k: nat)
    requires k < |teams|
    ensures PlayersOfTeam(RosterRows(firstTimeId, firstRowId, teams), firstTimeId + k) == teams[k].jogadorIds
  {
    var n := |teams| - 1;
    if k == n {
      RosterOfLastTeam(firstTimeId, firstRowId, teams);
    } else {
      RosterOfEarlierTeam(firstTimeId, firstRowId, teams, k);
      RosterOfTeam(firstTimeId, firstRowId, teams[..n], k);
      assert teams[..n][k] == teams[k];
    }
  }

  lemma RosterOfLastTeam(firstTimeId: int, firstRowId: int, teams: seq<TeamSubmission>)
    requires |teams| > 0
    ensures PlayersOfTeam(RosterRows(firstTimeId, firstRowId, teams), firstTimeId + |teams| - 1) == teams[|teams| - 1].jogadorIds
  {
    var n := |teams| - 1;
    var front := RosterRows(firstTimeId, firstRowId, teams[..n]);
    var last := MemberRows(firstTimeId + n, firstRowId + MemberCount(teams[..n]), teams[n].jogadorIds);
    RosterRowsSplit(firstTimeId, firstRowId, teams);
    PlayersOfTeamAppend(front, last, firstTimeId + n);
    PlayersOfOtherTeam(front, firstTimeId + n);
    PlayersOfOneTeam(firstTimeId + n, firstRowId + MemberCount(teams[..n]), teams[n].jogadorIds);
  }

  lemma RosterOfEarlierTeam(firstTimeId: int, firstRowId: int, teams: seq<TeamSubmission>, k: nat)
    requires k < |teams| - 1
    ensures PlayersOfTeam(RosterRows(firstTimeId, firstRowId, teams), firstTimeId + k)
      == PlayersOfTeam(RosterRows(firstTimeId, firstRowId, teams[..|teams| - 1]), firstTimeId + k)
  {
    var n := |teams| - 1;
    var front := RosterRows(firstTimeId, firstRowId, teams[..n]);
    var last := MemberRows(firstTimeId + n, firstRowId + MemberCount(teams[..n]), teams[n].jogadorIds);
    RosterRowsSplit(firstTimeId, firstRowId, teams);
    PlayersOfTeamAppend(front, last, firstTimeId + k);
    PlayersOfOtherTeam(last, firstTimeId + k);
  }

  /** No submitted team lists the same player twice. */
  predicate TeamsDistinct(teams: seq<TeamSubmission>) {
    forall k :: 0 <= k < |teams| ==> Distinct(teams[k].jogadorIds)
  }

  /** Every submitted player id is the id of a stored player. */
  predicate TeamsKnown(teams: seq<TeamSubmission>, playerIds: seq<int>) {
    forall k, i :: 0 <= k < |teams| && 0 <= i < |teams[k].jogadorIds| ==> teams[k].jogadorIds[i] in playerIds
  }

  /** Rows of teams numbered from `firstTimeId` on never clash with rows of older teams. */
  lemma NoPairAcross(old_: seq<TimeJogador>, firstTimeId: int, firstRowId: int, teams: seq<TeamSubmission>)
    requires forall i :: 0 <= i < |old_| ==> old_[i].timeId < firstTimeId
    ensures forall a, b :: 0 <= a < |old_| && 0 <= b < |RosterRows(firstTimeId, firstRowId, teams)| ==>
      MembershipPairs(old_)[a] != MembershipPairs(RosterRows(firstTimeId, firstRowId, teams))[b]
  {
    RosterRowsTeams(firstTimeId, firstRowId, teams);
  }

  /** The pairs of a concatenation, as a concatenation. */
  lemma PairsAppend(a: seq<TimeJogador>, b: seq<TimeJogador>)
    ensures MembershipPairs(a + b) == MembershipPairs(a) + MembershipPairs(b)
  {
    MapAppend(a, b, (m: TimeJogador) => (m.timeId, m.jogadorId));
  }

  lemma DistinctConcat<T>(a: seq<T>, b: seq<T>)
    requires forall i, j :: 0 <= i < |a| && 0 <= j < |b| ==> a[i] != b[j]
    ensures Distinct(a + b) <==> Distinct(a) && Distinct(b)
  {
    if Distinct(a) && Distinct(b) {
      forall i, j | 0 <= i < j < |a + b| ensures (a + b)[i] != (a + b)[j] {
        if j < |a| {
          assert (a + b)[i] == a[i] && (a + b)[j] == a[j];
        } else if i >= |a| {
          assert (a + b)[i] == b[i - |a|] && (a + b)[j] == b[j - |a|];
        } else {
          assert (a + b)[i] == a[i] && (a + b)[j] == b[j - |a|];
        }
      }
    }
    if Distinct(a + b) {
      forall i, j | 0 <= i < j < |b| ensures b[i] != b[j] {
        assert (a + b)[|a| + i] == b[i] && (a + b)[|a| + j] == b[j];
      }
      forall i, j | 0 <= i < j < |a| ensures a[i] != a[j] {
        assert (a + b)[i] == a[i] && (a + b)[j] == a[j];
      }
    }
  }

  /** The pairs of one team's rows are distinct exactly when its player ids are. */
  lemma OneTeamPairs(timeId: int, firstRowId: int, ids: seq<int>)
    ensures Distinct(MembershipPairs(MemberRows(timeId, firstRowId, ids))) <==> Distinct(ids)
  {
    var ps := MembershipPairs(MemberRows(timeId, firstRowId, ids));
    assert forall i :: 0 <= i < |ids| ==> ps[i] == (timeId, ids[i]);
  }

  lemma PairsApart(front: seq<TimeJogador>, last: seq<TimeJogador>, t: int)
    requires forall i :: 0 <= i < |front| ==> front[i].timeId < t
    requires forall j :: 0 <= j < |last| ==> last[j].timeId == t
    ensures forall i, j :: 0 <= i < |front| && 0 <= j < |last| ==> MembershipPairs(front)[i] != MembershipPairs(last)[j]
  {
  }

  /** Appending the rows of a team newer than every row so far keeps the pairs distinct iff its ids are. */
  lemma PairsStep(front: seq<TimeJogador>, t: int, r: int, ids: seq<int>)
    requires forall i :: 0 <= i < |front| ==> front[i].timeId < t
    ensures Distinct(MembershipPairs(front + MemberRows(t, r, ids))) <==> Distinct(MembershipPairs(front)) && Distinct(ids)
  {
    var last := MemberRows(t, r, ids);
    PairsAppend(front, last);
    OneTeamPairs(t, r, ids);
    PairsApart(front, last, t);
    DistinctConcat(MembershipPairs(front), MembershipPairs(last));
  }

  lemma TeamsDistinctSplit(teams: seq<TeamSubmission>)
    requires teams != []
    ensures TeamsDistinct(teams) <==> TeamsDistinct(teams[..|teams| - 1]) && Distinct(teams[|teams| - 1].jogadorIds)
  {
    assert forall k :: 0 <= k < |teams| - 1 ==> teams[..|teams| - 1][k] == teams[k];
  }

  /** The pairs of the rows of all teams are distinct exactly when no team lists a player twice. */
  lemma {:induction false} RosterPairsDistinct(firstTimeId: int, firstRowId: int, teams: seq<TeamSubmission>)
    ensures Distinct(MembershipPairs(RosterRows(firstTimeId, firstRowId, teams))) <==> TeamsDistinct(teams)
  {
    if teams != [] {
      var n := |teams| - 1;
      var front := RosterRows(firstTimeId, firstRowId, teams[..n]);
      var last := MemberRows(firstTimeId + n, firstRowId + MemberCount(teams[..n]), teams[n].jogadorIds);
      RosterPairsDistinct(firstTimeId, firstRowId, teams[..n]);
      RosterRowsSplit(firstTimeId, firstRowId, teams);
      PairsStep(front, firstTimeId + n, firstRowId + MemberCount(teams[..n]), teams[n].jogadorIds);
      TeamsDistinctSplit(teams);
    }
  }

  /**
   * The unique (TimeId, JogadorId) index admits the rows of a submission
   * exactly when no submitted team lists the same player twice.
   */
  lemma {:induction false} RosterUniqueIff(old_: seq<TimeJogador>, firstTimeId: int, firstRowId: int,
                                           teams: seq<TeamSubmission>)
    requires MembershipsUnique(old_)
    requires forall i :: 0 <= i < |old_| ==> old_[i].timeId < firstTimeId
    ensures MembershipsUnique(old_ + RosterRows(firstTimeId, firstRowId, teams)) <==> TeamsDistinct(teams)
  {
    var rows := RosterRows(firstTimeId, firstRowId, teams);
    PairsAppend(old_, rows);
    NoPairAcross(old_, firstTimeId, firstRowId, teams);
    DistinctConcat(MembershipPairs(old_), MembershipPairs(rows));
    RosterPairsDistinct(firstTimeId, firstRowId, teams);
  }

  /** The submitted player ids of all teams, in submission order. */
  function SubmittedIds(teams: seq<TeamSubmission>): seq<int> {
    if teams == [] then [] else SubmittedIds(teams[..|teams| - 1]) + teams[|teams| - 1].jogadorIds
  }

  /** The player ids of the rows of all teams are the submitted ids, in order. */
  lemma {:induction false} RosterPlayersFlat(firstTimeId: int, firstRowId: int, teams: seq<TeamSubmission>)
    ensures MemberPlayers(RosterRows(firstTimeId, firstRowId, teams)) == SubmittedIds(teams)
  {
    if teams != [] {
      var n := |teams| - 1;
      var front := RosterRows(firstTimeId, firstRowId, teams[..n]);
      var last := MemberRows(firstTimeId + n, firstRowId + MemberCount(teams[..n]), teams[n].jogadorIds);
      RosterRowsSplit(firstTimeId, firstRowId, teams);
      RosterPlayersFlat(firstTimeId, firstRowId, teams[..n]);
      MapAppend(front, last, (m: TimeJogador) => m.jogadorId);
      assert MemberPlayers(last) == teams[n].jogadorIds;
    }
  }

  lemma {:induction false} SubmittedIdsHas(teams: seq<TeamSubmission>, k: nat, i: nat)
    requires k < |teams| && i < |teams[k].jogadorIds|
    ensures teams[k].jogadorIds[i] in SubmittedIds(teams)
  {
    var n := |teams| - 1;
    if k < n {
      SubmittedIdsHas(teams[..n], k, i);
      assert teams[..n][k] == teams[k];
    } else {
      assert SubmittedIds(teams) == SubmittedIds(teams[..n]) + teams[n].jogadorIds;
    }
  }

  lemma {:induction false} SubmittedIdsFrom(teams: seq<TeamSubmission>, x: int)
    requires x in SubmittedIds(teams)
    ensures exists k, i :: 0 <= k < |teams| && 0 <= i < |teams[k].jogadorIds| && teams[k].jogadorIds[i] == x
  {
    var n := |teams| - 1;
    assert SubmittedIds(teams) == SubmittedIds(teams[..n]) + teams[n].jogadorIds;
    if x in SubmittedIds(teams[..n]) {
      SubmittedIdsFrom(teams[..n], x);
      var k, i :| 0 <= k < n && 0 <= i < |teams[..n][k].jogadorIds| && teams[..n][k].jogadorIds[i] == x;
      assert teams[k].jogadorIds[i] == x;
    } else {
      var i :| 0 <= i < |teams[n].jogadorIds| && teams[n].jogadorIds[i] == x;
    }
  }

  /** The player foreign key admits the rows of a submission exactly when every submitted id is a stored player. */
  lemma RosterKnownIff(firstTimeId: int, firstRowId: int, teams: seq<TeamSubmission>, playerIds: seq<int>)
    ensures References(MemberPlayers(RosterRows(firstTimeId, firstRowId, teams)), playerIds) <==> TeamsKnown(teams, playerIds)
  {
    var col := MemberPlayers(RosterRows(firstTimeId, firstRowId, teams));
    RosterPlayersFlat(firstTimeId, firstRowId, teams);
    forall x | x in col ensures exists k, i :: 0 <= k < |teams| && 0 <= i < |teams[k].jogadorIds| && teams[k].jogadorIds[i] == x {
      SubmittedIdsFrom(teams, x);
    }
    forall k, i | 0 <= k < |teams| && 0 <= i < |teams[k].jogadorIds| ensures teams[k].jogadorIds[i] in col {
      SubmittedIdsHas(teams, k, i);
    }
  }

  // Listings.

  /** `GET /api/sorteios/{id}/times`: not found for an unknown draw, else its teams in table order. */
  function ListTimes(draws: seq<SorteioRow>, ts: seq<Time>, id: int): (r: Reply<seq<TimeDto>>)
    ensures r.Ok? || r.NotFound?
    ensures r.NotFound? <==> id !in DrawIds(draws)
    ensures r.Ok? ==> |r.value| <= |ts|
    ensures r.Ok? ==> forall t :: t in ts ==> (ToTimeDto(t) in r.value <==> t.sorteioId == id)
    ensures r.Ok? ==> forall x :: x in r.value <==> exists t :: t in ts && t.sorteioId == id && x == ToTimeDto(t)
  {
    if id !in DrawIds(draws) then NotFound
    else
      var kept := Filter(ts, (t: Time) => t.sorteioId == id);
      var dtos := Map(kept, ToTimeDto);
      assert forall k :: 0 <= k < |dtos| ==> dtos[k] == ToTimeDto(kept[k]) && kept[k] in kept;
      assert forall t :: t in kept ==> exists k :: 0 <= k < |kept| && kept[k] == t;
      Ok(dtos)
  }

  /**
   * After teams are added to a draw, its listing is the earlier listing
   * followed by the created teams, in submission order.
   */
  lemma {:induction false} ListTimesAfterAdd(draws: seq<SorteioRow>, ts: seq<Time>, firstId: int, id: int,
                                             teams: seq<TeamSubmission>)
    requires id in DrawIds(draws)
    ensures ListTimes(draws, ts + TeamRows(firstId, id, teams), id).Ok?
    ensures ListTimes(draws, ts + TeamRows(firstId, id, teams), id).value
      == ListTimes(draws, ts, id).value + Map(TeamRows(firstId, id, teams), ToTimeDto)
  {
    var p := (t: Time) => t.sorteioId == id;
    var fresh_ := TeamRows(firstId, id, teams);
    FilterAppend(ts, fresh_, p);
    FilterAll(fresh_, p);
    MapAppend(Filter(ts, p), fresh_, ToTimeDto);
  }

  /** One line of the roster listing. */
  datatype RosterItem = RosterItem(id: int, nome: string, posicoes: seq<string>, destaque: bool, peso: bool)

  /** A roster line: positions split on "," as stored, without trimming or dropping empties. */
  function RosterLine(j: Jogador): (r: RosterItem)
    ensures r.id == j.id && r.nome == j.nome && r.destaque == j.destaque && r.peso == j.peso
    ensures j.posicao.None? ==> r.posicoes == []
    ensures j.posicao.Some? ==> r.posicoes == Split(j.posicao.value) && Join(r.posicoes) == j.posicao.value
  {
    JoinSplitAll(j.posicao);
    RosterItem(j.id, j.nome, if j.posicao.Some? then Split(j.posicao.value) else [], j.destaque, j.peso)
  }

  lemma JoinSplitAll(p: Option<string>)
    ensures p.Some? ==> Join(Split(p.value)) == p.value
  {
    if p.Some? {
      JoinSplit(p.value);
    }
  }

  /** Membership rows joined with their players (an inner join: a row without a player is dropped). */
  function Joined(ms: seq<TimeJogador>, js: seq<Jogador>): (r: seq<RosterItem>)
    ensures |r| <= |ms|
  {
    if ms == [] then []
    else
      var i := FirstIndex(js, (j: Jogador) => j.id == ms[0].jogadorId);
      var head := if i.Some? then [RosterLine(js[i.value])] else [];
      head + Joined(ms[1..], js)
  }

  /** Every joined line is the roster line of a stored player. */
  lemma {:induction false} JoinedLines(ms: seq<TimeJogador>, js: seq<Jogador>)
    ensures forall k :: 0 <= k < |Joined(ms, js)| ==> exists i :: 0 <= i < |js| && Joined(ms, js)[k] == RosterLine(js[i])
  {
    if ms != [] {
      JoinedLines(ms[1..], js);
      var f := FirstIndex(js, (j: Jogador) => j.id == ms[0].jogadorId);
      var head := if f.Some? then [RosterLine(js[f.value])] else [];
      var tail := Joined(ms[1..], js);
      assert Joined(ms, js) == head + tail;
      forall k | 0 <= k < |Joined(ms, js)|
        ensures exists i :: 0 <= i < |js| && Joined(ms, js)[k] == RosterLine(js[i])
      {
        if k < |head| {
          var w := f.value;
          assert Joined(ms, js)[k] == RosterLine(js[w]);
        } else {
          var w :| 0 <= w < |js| && tail[k - |head|] == RosterLine(js[w]);
          assert Joined(ms, js)[k] == RosterLine(js[w]);
        }
      }
    } else {
      assert Joined(ms, js) == [];
    }
  }

  lemma {:induction false} JoinedIds(ms: seq<TimeJogador>, js: seq<Jogador>)
    requires References(MemberPlayers(ms), JogadorIds(js))
    ensures Map(Joined(ms, js), (r: RosterItem) => r.id) == MemberPlayers(ms)
  {
    if ms != [] {
      assert MemberPlayers(ms)[0] in JogadorIds(js);
      var i := FirstIndex(js, (j: Jogador) => j.id == ms[0].jogadorId);
      assert i.Some? by {
        var a :| 0 <= a < |js| && JogadorIds(js)[a] == ms[0].jogadorId;
        assert js[a].id == ms[0].jogadorId;
      }
      assert forall k :: 0 <= k < |ms[1..]| ==> MemberPlayers(ms[1..])[k] == MemberPlayers(ms)[k + 1];
      JoinedIds(ms[1..], js);
      MapAppend([RosterLine(js[i.value])], Joined(ms[1..], js), (r: RosterItem) => r.id);
      assert MemberPlayers(ms) == [ms[0].jogadorId] + MemberPlayers(ms[1..]);
    }
  }

  /**
   * `GET /api/sorteios/{sorteioId}/times/{timeId}/jogadores`: not found for
   * an unknown draw; otherwise the players of the rows whose team id is
   * `timeId`, whatever draw that team belongs to.
   */
  function ListRoster(draws: seq<SorteioRow>, ms: seq<TimeJogador>, js: seq<Jogador>,
                      sorteioId: int, timeId: int): (r: Reply<seq<RosterItem>>)
    ensures r.Ok? || r.NotFound?
    ensures r.NotFound? <==> sorteioId !in DrawIds(draws)
  {
    if sorteioId !in DrawIds(draws) then NotFound
    else Ok(Joined(Filter(ms, (m: TimeJogador) => m.timeId == timeId), js))
  }

  /**
   * With the player foreign key in force, the roster of a team lists one line
   * per membership row of that team, with exactly that team's player ids.
   */
  lemma RosterListsTeam(draws: seq<SorteioRow>, ms: seq<TimeJogador>, js: seq<Jogador>, sorteioId: int, timeId: int)
    requires sorteioId in DrawIds(draws)
    requires References(MemberPlayers(ms), JogadorIds(js))
    ensures ListRoster(draws, ms, js, sorteioId, timeId).Ok?
    ensures Map(ListRoster(draws, ms, js, sorteioId, timeId).value, (r: RosterItem) => r.id) == PlayersOfTeam(ms, timeId)
  {
    var kept := Filter(ms, (m: TimeJogador) => m.timeId == timeId);
    PlayersOfTeamFilter(ms, timeId);
    assert forall k :: 0 <= k < |kept| ==> kept[k] in ms;
    assert forall k :: 0 <= k < |kept| ==> MemberPlayers(kept)[k] in JogadorIds(js) by {
      forall k | 0 <= k < |kept| ensures MemberPlayers(kept)[k] in JogadorIds(js) {
        var a :| 0 <= a < |ms| && ms[a] == kept[k];
        assert MemberPlayers(ms)[a] == kept[k].jogadorId;
      }
    }
    JoinedIds(kept, js);
  }

  /**
   * Each roster line is the line of the player its membership row names:
   * line k carries the name, flags and raw-split positions of the stored
   * player whose id is the team's k-th player id.
   */
  lemma RosterLinesOfPlayers(draws: seq<SorteioRow>, ms: seq<TimeJogador>, js: seq<Jogador>, sorteioId: int, timeId: int)
    requires sorteioId in DrawIds(draws)
    requires References(MemberPlayers(ms), JogadorIds(js))
    ensures var r := ListRoster(draws, ms, js, sorteioId, timeId);
      && r.Ok?
      && |r.value| == |PlayersOfTeam(ms, timeId)|
      && forall k :: 0 <= k < |r.value| ==>
           exists i :: 0 <= i < |js| && js[i].id == PlayersOfTeam(ms, timeId)[k] && r.value[k] == RosterLine(js[i])
  {
    RosterListsTeam(draws, ms, js, sorteioId, timeId);
    JoinedLines(Filter(ms, (m: TimeJogador) => m.timeId == timeId), js);
    var r := ListRoster(draws, ms, js, sorteioId, timeId).value;
    var ids := Map(r, (x: RosterItem) => x.id);
    forall k | 0 <= k < |r|
      ensures exists i :: 0 <= i < |js| && js[i].id == PlayersOfTeam(ms, timeId)[k] && r[k] == RosterLine(js[i])
    {
      var i :| 0 <= i < |js| && r[k] == RosterLine(js[i]);
      assert ids[k] == r[k].id;
    }
  }

  /** The route's draw id only gates the roster listing: any existing draw gives the same lines. */
  lemma RosterIgnoresDraw(draws: seq<SorteioRow>, ms: seq<TimeJogador>, js: seq<Jogador>, s1: int, s2: int, timeId: int)
    requires s1 in DrawIds(draws) && s2 in DrawIds(draws)
    ensures ListRoster(draws, ms, js, s1, timeId) == ListRoster(draws, ms, js, s2, timeId)
  {
  }

  /**
   * Adding teams then listing the roster of the k-th new team yields exactly
   * the player ids submitted for it, in order, under any existing draw id.
   */
  lemma {:induction false} RosterAfterAdd(draws: seq<SorteioRow>, old_: seq<TimeJogador>, js: seq<Jogador>,
                                          f: int, r: int, teams: seq<TeamSubmission>, k: nat, sorteioId: int)
    requires sorteioId in DrawIds(draws) && k < |teams|
    requires forall i :: 0 <= i < |old_| ==> old_[i].timeId < f
    requires References(MemberPlayers(old_ + RosterRows(f, r, teams)), JogadorIds(js))
    ensures ListRoster(draws, old_ + RosterRows(f, r, teams), js, sorteioId, f + k).Ok?
    ensures Map(ListRoster(draws, old_ + RosterRows(f, r, teams), js, sorteioId, f + k).value, (x: RosterItem) => x.id)
            == teams[k].jogadorIds
  {
    RosterListsTeam(draws, old_ + RosterRows(f, r, teams), js, sorteioId, f + k);
    RosterOfNewTeam(old_, f, r, teams, k);
  }

  /** `GET /api/sorteios`: the draws stamped with the caller's user id, in table order. */
  function ListDraws(draws: seq<SorteioRow>, caller: Option<UserId>): (r: Reply<seq<SorteioRow>>)
    ensures r.Ok? || r.Unauthorized?
    ensures r.Unauthorized? <==> caller.None?
    ensures r.Ok? ==> forall d :: d in r.value <==> d in draws && d.organizadorId == caller.value
  {
    if caller.None? then Unauthorized
    else Ok(Filter(draws, (d: SorteioRow) => d.organizadorId == caller.value))
  }

  /** A draw created by a caller is listed for that caller, after the draws listed before. */
  lemma {:induction false} ListDrawsAfterCreate(draws: seq<SorteioRow>, d: SorteioRow, u: UserId)
    requires d.organizadorId == u
    ensures ListDraws(draws + [d], Some(u)).Ok?
    ensures ListDraws(draws + [d], Some(u)).value == ListDraws(draws, Some(u)).value + [d]
  {
    FilterAppend(draws, [d], (x: SorteioRow) => x.organizadorId == u);
    FilterAll([d], (x: SorteioRow) => x.organizadorId == u);
  }

  /** The position of the draw with this id (`FirstAsync(x => x.Id == id)`), or none. */
  function DrawIndex(draws: seq<SorteioRow>, id: int): (r: Option<nat>)
    ensures r.None? <==> id !in DrawIds(draws)
    ensures r.Some? ==> r.value < |draws| && draws[r.value].id == id
  {
    var r := FirstIndex(draws, (d: SorteioRow) => d.id == id);
    assert r.None? ==> forall k :: 0 <= k < |draws| ==> DrawIds(draws)[k] != id;
    r
  }

  /** The membership rows of a submission take consecutive ids from `firstRowId`. */
  lemma {:induction false} RosterRowsIds(firstTimeId: int, firstRowId: int, teams: seq<TeamSubmission>)
    ensures forall i :: 0 <= i < |RosterRows(firstTimeId, firstRowId, teams)| ==>
      RosterRows(firstTimeId, firstRowId, teams)[i].id == firstRowId + i
  {
    if teams != [] {
      RosterRowsIds(firstTimeId, firstRowId, teams[..|teams| - 1]);
    }
  }

  /** Keys below `n` followed by the keys `n`, `n + 1`, ... are distinct and below the next counter value. */
  lemma FreshKeys(ids: seq<int>, added: seq<int>, n: int)
    requires Distinct(ids) && Below(ids, n)
    requires forall i :: 0 <= i < |added| ==> added[i] == n + i
    ensures Distinct(ids + added) && Below(ids + added, n + |added|)
  {
  }

  /** In a consistent store whose team ids are below `f`, every membership row names a team below `f`. */
  lemma OldRowsBelow(db: Db, f: int)
    requires Consistent(db) && Below(TimeIds(db.times), f)
    ensures forall i :: 0 <= i < |db.timeJogadores| ==> db.timeJogadores[i].timeId < f
  {
    forall i | 0 <= i < |db.timeJogadores| ensures db.timeJogadores[i].timeId < f {
      assert MemberTeams(db.timeJogadores)[i] in TimeIds(db.times);
    }
  }

  /**
   * The store accepts the membership rows of a submission (the unique
   * (TimeId, JogadorId) index and the foreign key to `Jogadores`) exactly
   * when no team lists a player twice and every listed id is a stored player.
   */
  lemma {:induction false} AcceptedIff(db: Db, f: int, r: int, teams: seq<TeamSubmission>)
    requires Consistent(db) && Below(TimeIds(db.times), f)
    ensures var rows := RosterRows(f, r, teams);
      (MembershipsUnique(db.timeJogadores + rows) && References(MemberPlayers(rows), JogadorIds(db.jogadores)))
      <==> TeamsDistinct(teams) && TeamsKnown(teams, JogadorIds(db.jogadores))
  {
    OldRowsBelow(db, f);
    RosterUniqueIff(db.timeJogadores, f, r, teams);
    RosterKnownIff(f, r, teams, JogadorIds(db.jogadores));
  }

  /**
   * Adding a submission the store accepts to draw `k` keeps the store
   * consistent: the new teams and membership rows take fresh keys, every
   * team row points at the draw, and every membership row at a new team and
   * a stored player.
   */
  lemma {:induction false} AddTeamsKeeps(db: Db, k: nat, f: int, r: int, teams: seq<TeamSubmission>)
    requires Consistent(db) && k < |db.sorteios|
    requires Below(TimeIds(db.times), f) && Below(MembershipIds(db.timeJogadores), r)
    requires TeamsDistinct(teams) && TeamsKnown(teams, JogadorIds(db.jogadores))
    ensures var added := TeamRows(f, db.sorteios[k].id, teams);
      var rows := RosterRows(f, r, teams);
      && Consistent(db.(sorteios := db.sorteios[k := Resized(db.sorteios[k], |teams|)],
                        times := db.times + added,
                        timeJogadores := db.timeJogadores + rows))
      && Below(TimeIds(db.times + added), f + |teams|)
      && Below(MembershipIds(db.timeJogadores + rows), r + MemberCount(teams))
  {
    var id := db.sorteios[k].id;
    var added := TeamRows(f, id, teams);
    var rows := RosterRows(f, r, teams);
    MapAppend(db.times, added, (t: Time) => t.id);
    FreshKeys(TimeIds(db.times), TimeIds(added), f);
    assert DrawIds(db.sorteios)[k] == id;
    AddTimesKeeps(db, added);
    var db1 := db.(times := db.times + added);
    RosterRowsIds(f, r, teams);
    MapAppend(db.timeJogadores, rows, (m: TimeJogador) => m.id);
    FreshKeys(MembershipIds(db.timeJogadores), MembershipIds(rows), r);
    AcceptedIff(db, f, r, teams);
    RosterRowsTeams(f, r, teams);
    forall i | 0 <= i < |rows| ensures MemberTeams(rows)[i] in TimeIds(db1.times) {
      var t := rows[i].timeId - f;
      assert TimeIds(db1.times)[|db.times| + t] == f + t;
    }
    AddMembersKeeps(db1, rows);
    var db2 := db1.(timeJogadores := db.timeJogadores + rows);
    UpdateDrawKeeps(db2, k, Resized(db.sorteios[k], |teams|));
  }

  /** The effect of adding teams on the draw's own row: only the team count changes, to `n`. */
  function Resized(r: SorteioRow, n: int): (s: SorteioRow)
    ensures s.quantidadeTimes == n
    ensures s.(quantidadeTimes := r.quantidadeTimes) == r
  {
    r.(quantidadeTimes := n)
  }

  /** No draw that was finalized is open afterwards. */
  predicate StatusesMonotone(before: seq<SorteioRow>, after: seq<SorteioRow>) {
    |before| <= |after| && forall k :: 0 <= k < |before| && before[k].status == FINALIZADO ==> after[k].status == FINALIZADO
  }

  /** Finalizing, resizing and creating draws never move a draw back to "Aberto". */
  lemma NoReopen(rows: seq<SorteioRow>, k: nat, n: int, d: SorteioRow)
    requires k < |rows|
    ensures StatusesMonotone(rows, rows[k := Finalized(rows[k])])
    ensures StatusesMonotone(rows, rows[k := Resized(rows[k], n)])
    ensures StatusesMonotone(rows, rows + [d])
  {
  }
}
