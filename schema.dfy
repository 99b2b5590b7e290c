/**
 * The six relational tables as rows in storage order, and the UNIQUE and
 * REFERENCES constraints of their DDL as a validity predicate.
 * NULL never collides with anything under UNIQUE, and a NULL foreign key
 * is never checked.
 */
module Schema {
  import opened Wrappers
  import opened Records

  datatype TeamRow = TeamRow(teamId: Option<int>, name: Option<string>)

  datatype PlayerRow = PlayerRow(
    playerId: Option<int>,
    firstName: string, lastName: string, fullName: string,
    teamId: Option<int>)

  datatype GameRow = GameRow(
    gameId: Option<int>,
    date: Option<string>,
    homeTeamId: Option<int>, awayTeamId: Option<int>,
    homeScore: Option<int>, awayScore: Option<int>,
    homeRebounds: Option<int>, awayRebounds: Option<int>,
    homeAssists: Option<int>, awayAssists: Option<int>)

  datatype ShotRow = ShotRow(
    playerId: Option<int>,
    actionType: Option<string>,
    locX: Option<Coord>, locY: Option<Coord>,
    points: Option<int>,
    gameId: Option<int>)

  datatype PassRow = PassRow(
    playerId: Option<int>,
    actionType: Option<string>,
    startLocX: Option<Coord>, startLocY: Option<Coord>,
    endLocX: Option<Coord>, endLocY: Option<Coord>,
    isCompleted: Option<bool>, isPotentialAssist: Option<bool>, isTurnover: Option<bool>,
    gameId: Option<int>)

  datatype TurnoverRow = TurnoverRow(
    playerId: Option<int>,
    actionType: Option<string>,
    locX: Option<Coord>, locY: Option<Coord>,
    gameId: Option<int>)

  predicate HasTeam(teams: seq<TeamRow>, id: int) {
    exists k :: 0 <= k < |teams| && teams[k].teamId == Some(id)
  }

  predicate HasTeamName(teams: seq<TeamRow>, name: string) {
    exists k :: 0 <= k < |teams| && teams[k].name == Some(name)
  }

  predicate HasPlayer(players: seq<PlayerRow>, id: int) {
    exists k :: 0 <= k < |players| && players[k].playerId == Some(id)
  }

  predicate HasGame(games: seq<GameRow>, id: int) {
    exists k :: 0 <= k < |games| && games[k].gameId == Some(id)
  }

  /** A nullable `REFERENCES team(team_id)` column value. */
  predicate TeamRef(teams: seq<TeamRow>, ref: Option<int>) {
    ref.Some? ==> HasTeam(teams, ref.value)
  }

  /** A nullable `REFERENCES player(player_id)` column value. */
  predicate PlayerRef(players: seq<PlayerRow>, ref: Option<int>) {
    ref.Some? ==> HasPlayer(players, ref.value)
  }

  /** `team_id INT UNIQUE` and `name TEXT UNIQUE`. */
  predicate TeamKeysUnique(teams: seq<TeamRow>) {
    forall i, j :: 0 <= i < j < |teams| ==>
      && (teams[i].teamId.Some? ==> teams[i].teamId != teams[j].teamId)
      && (teams[i].name.Some? ==> teams[i].name != teams[j].name)
  }

  /** `player_id INT UNIQUE`. */
  predicate PlayerKeysUnique(players: seq<PlayerRow>) {
    forall i, j :: 0 <= i < j < |players| && players[i].playerId.Some? ==>
      players[i].playerId != players[j].playerId
  }

  /** `game_id INT UNIQUE`. */
  predicate GameKeysUnique(games: seq<GameRow>) {
    forall i, j :: 0 <= i < j < |games| && games[i].gameId.Some? ==>
      games[i].gameId != games[j].gameId
  }

  /** The whole store: team, player, game, shot, pass and turnover, each in storage order. */
  datatype Tables = Tables(
    teams: seq<TeamRow>,
    players: seq<PlayerRow>,
    games: seq<GameRow>,
    shots: seq<ShotRow>,
    passes: seq<PassRow>,
    turnovers: seq<TurnoverRow>)
  {
    /** Every constraint the DDL declares. The event tables have no UNIQUE column. */
    ghost predicate Valid() {
      && TeamKeysUnique(teams)
      && PlayerKeysUnique(players)
      && GameKeysUnique(games)
      && (forall i :: 0 <= i < |players| ==> TeamRef(teams, players[i].teamId))
      && (forall i :: 0 <= i < |games| ==>
            TeamRef(teams, games[i].homeTeamId) && TeamRef(teams, games[i].awayTeamId))
      && (forall i :: 0 <= i < |shots| ==> PlayerRef(players, shots[i].playerId))
      && (forall i :: 0 <= i < |passes| ==> PlayerRef(players, passes[i].playerId))
      && (forall i :: 0 <= i < |turnovers| ==> PlayerRef(players, turnovers[i].playerId))
    }
  }

  /** The store right after the tables are dropped and created again. */
  const Empty: Tables := Tables([], [], [], [], [], [])

  /** A key present in a table stays present when rows are appended. */
  lemma TeamRefGrows(teams: seq<TeamRow>, more: seq<TeamRow>, ref: Option<int>)
    requires teams <= more
    requires TeamRef(teams, ref)
    ensures TeamRef(more, ref)
  {
    if ref.Some? {
      var k :| 0 <= k < |teams| && teams[k].teamId == ref;
      assert more[k] == teams[k];
    }
  }

  lemma PlayerRefGrows(players: seq<PlayerRow>, more: seq<PlayerRow>, ref: Option<int>)
    requires players <= more
    requires PlayerRef(players, ref)
    ensures PlayerRef(more, ref)
  {
    if ref.Some? {
      var k :| 0 <= k < |players| && players[k].playerId == ref;
      assert more[k] == players[k];
    }
  }
}
