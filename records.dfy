/**
 * The already-parsed input records of the loader: one JSON object per team,
 * per player (with its nested shots, passes and turnovers) and per game.
 * Unknown keys are dropped; every known key may be missing or null.
 */
module Records {
  import opened Wrappers

  /** A court coordinate. It is stored in a FLOAT column and echoed back,
      never computed on, so the model keeps it opaque. */
  type Coord(==)

  /** One key of a parsed JSON object: missing, present with `null`, or present with a value. */
  datatype Field<T> = Absent | Null | Present(value: T) {

    /** `d.get(key)`: missing and null both read as None. */
    function Get(): (r: Option<T>)
      ensures r.Some? <==> Present?
      ensures r.Some? ==> r.value == value
    {
      if Present? then Some(value) else None
    }

    /** `d.get(key, default)`: the default replaces a missing key only; an explicit null stays None. */
    function GetOr(default: T): (r: Option<T>)
      ensures r.None? <==> Null?
      ensures Absent? ==> r == Some(default)
      ensures Present? ==> r == Some(value)
    {
      match this
      case Absent => Some(default)
      case Null => None
      case Present(v) => Some(v)
    }
  }

  /** An element of teams.json. */
  datatype TeamRecord = TeamRecord(teamId: Field<int>, name: Field<string>)

  /** An element of a player's "shots" list. */
  datatype ShotRecord = ShotRecord(
    actionType: Field<string>,
    shotLocX: Field<Coord>, shotLocY: Field<Coord>,
    points: Field<int>,
    gameId: Field<int>)

  /** An element of a player's "passes" list. */
  datatype PassRecord = PassRecord(
    actionType: Field<string>,
    ballStartLocX: Field<Coord>, ballStartLocY: Field<Coord>,
    ballEndLocX: Field<Coord>, ballEndLocY: Field<Coord>,
    completedPass: Field<bool>, potentialAssist: Field<bool>, turnover: Field<bool>,
    gameId: Field<int>)

  /** An element of a player's "turnovers" list. */
  datatype TurnoverRecord = TurnoverRecord(
    actionType: Field<string>,
    tovLocX: Field<Coord>, tovLocY: Field<Coord>,
    gameId: Field<int>)

  /** An element of players.json. */
  datatype PlayerRecord = PlayerRecord(
    name: Field<string>,
    teamId: Field<int>,
    playerId: Field<int>,
    shots: Field<seq<ShotRecord>>,
    passes: Field<seq<PassRecord>>,
    turnovers: Field<seq<TurnoverRecord>>)

  /** An element of games.json; the game's natural key is its "id" key. */
  datatype GameRecord = GameRecord(
    id: Field<int>,
    date: Field<string>,
    homeTeamId: Field<int>, awayTeamId: Field<int>,
    homeScore: Field<int>, awayScore: Field<int>,
    homeRebounds: Field<int>, awayRebounds: Field<int>,
    homeAssists: Field<int>, awayAssists: Field<int>)
}
