/**
 * `load_json_data`: three passes over already-parsed records. Teams, players
 * and games are inserted with `ON CONFLICT (<natural key>) DO NOTHING`; every
 * nested shot, pass and turnover is appended. A pass that raises is rolled
 * back as a whole and stops the load; the passes before it stay committed.
 */
module Loader {
  import opened Wrappers
  import opened Records
  import opened Names
  import opened Schema

  /** What a pass raises. */
  datatype LoadError =
    | MissingKey(key: string)               // KeyError from `t["team_id"]` or `t["name"]`
    | NullName                              // `None.split()`
    | BlankName                             // `first, *rest = []`
    | NullEventList(key: string)            // iterating a null "shots", "passes" or "turnovers"
    | UniqueViolation(constraint: string)
    | ForeignKeyViolation(constraint: string)

  // ---------------------------------------------------------------- teams

  /** The team row of a record: `team_id` and `name` go to their columns,
      a null one as NULL. */
  function TeamRowOf(t: TeamRecord): (row: TeamRow)
    ensures row.teamId.None? <==> !t.teamId.Present?
    ensures row.name.None? <==> !t.name.Present?
    ensures t.teamId.Present? ==> row.teamId == Some(t.teamId.value)
    ensures t.name.Present? ==> row.name == Some(t.name.value)
  {
    TeamRow(t.teamId.Get(), t.name.Get())
  }

  /** Whether `ON CONFLICT (team_id)` fires: a NULL team_id never conflicts. */
  predicate TeamKeyTaken(teams: seq<TeamRow>, t: TeamRecord) {
    t.teamId.Present? && HasTeam(teams, t.teamId.value)
  }

  /** `INSERT INTO team (team_id, name) VALUES (t["team_id"], t["name"]) ON CONFLICT (team_id) DO NOTHING`. */
  function InsertTeam(teams: seq<TeamRow>, t: TeamRecord): (r: Result<seq<TeamRow>, LoadError>)
    ensures r.Err? <==>
      || t.teamId.Absent? || t.name.Absent?
      || (!TeamKeyTaken(teams, t) && t.name.Present? && HasTeamName(teams, t.name.value))
    ensures r.Ok? && TeamKeyTaken(teams, t) ==> r.value == teams
    ensures r.Ok? && !TeamKeyTaken(teams, t) ==> r.value == teams + [TeamRowOf(t)]
    ensures r.Ok? && TeamKeysUnique(teams) ==> TeamKeysUnique(r.value)
    ensures r.Ok? && t.teamId.Present? ==> HasTeam(r.value, t.teamId.value)
  {
    if t.teamId.Absent? then Err(MissingKey("team_id"))
    else if t.name.Absent? then Err(MissingKey("name"))
    else if TeamKeyTaken(teams, t) then Ok(teams)
    else if t.name.Present? && HasTeamName(teams, t.name.value) then Err(UniqueViolation("team_name_key"))
    else
      var r := teams + [TeamRowOf(t)];
      assert r[|teams|] == TeamRowOf(t);
      Ok(r)
  }

  /** The team pass, one record after the other; the first error aborts it. */
  function TeamPass(teams: seq<TeamRow>, recs: seq<TeamRecord>): (r: Result<seq<TeamRow>, LoadError>)
    ensures r.Ok? ==> teams <= r.value
    ensures r.Ok? && TeamKeysUnique(teams) ==> TeamKeysUnique(r.value)
    decreases |recs|
  {
    if recs == [] then Ok(teams)
    else
      match InsertTeam(teams, recs[0])
      case Err(e) => Err(e)
      case Ok(t1) => TeamPass(t1, recs[1..])
  }

  /** After a successful team pass every record had both keys and every
      non-null team_id is in the table. */
  lemma {:induction false} TeamPassKeys(teams: seq<TeamRow>, recs: seq<TeamRecord>)
    requires TeamPass(teams, recs).Ok?
    ensures forall k :: 0 <= k < |recs| ==> !recs[k].teamId.Absent? && !recs[k].name.Absent?
    ensures forall k :: 0 <= k < |recs| && recs[k].teamId.Present? ==>
      HasTeam(TeamPass(teams, recs).value, recs[k].teamId.value)
    decreases |recs|
  {
    if recs != [] {
      var t1 := InsertTeam(teams, recs[0]).value;
      TeamPassKeys(t1, recs[1..]);
      var r := TeamPass(teams, recs).value;
      forall k | 0 <= k < |recs| ensures !recs[k].teamId.Absent? && !recs[k].name.Absent? {
        if k > 0 {
          assert recs[k] == recs[1..][k - 1];
        }
      }
      forall k | 0 <= k < |recs| && recs[k].teamId.Present? ensures HasTeam(r, recs[k].teamId.value) {
        if k == 0 {
          TeamRefGrows(t1, r, Some(recs[0].teamId.value));
        } else {
          assert recs[k] == recs[1..][k - 1];
        }
      }
    }
  }

  /** Records whose team_id is already present change nothing. */
  lemma {:induction false} TeamPassAllTaken(teams: seq<TeamRow>, recs: seq<TeamRecord>)
    requires forall k :: 0 <= k < |recs| ==> !recs[k].name.Absent? && TeamKeyTaken(teams, recs[k])
    ensures TeamPass(teams, recs) == Ok(teams)
  {
    if recs != [] {
      assert InsertTeam(teams, recs[0]) == Ok(teams);
      forall k | 0 <= k < |recs[1..]| ensures !recs[1..][k].name.Absent? && TeamKeyTaken(teams, recs[1..][k]) {
        assert recs[1..][k] == recs[k + 1];
      }
      TeamPassAllTaken(teams, recs[1..]);
    }
  }

  /** Insert-or-ignore is idempotent: a second team pass over records with
      non-null team_ids leaves the table as the first one left it. */
  lemma TeamPassIdempotent(teams: seq<TeamRow>, recs: seq<TeamRecord>)
    requires TeamPass(teams, recs).Ok?
    requires forall k :: 0 <= k < |recs| ==> recs[k].teamId.Present?
    ensures TeamPass(TeamPass(teams, recs).value, recs) == TeamPass(teams, recs)
  {
    TeamPassKeys(teams, recs);
    TeamPassAllTaken(TeamPass(teams, recs).value, recs);
  }

  // -------------------------------------------------------------- players

  /** `name = p.get("name", "")` and its split; a null name or one without
      any word raises. */
  function PlayerName(p: PlayerRecord): (r: Result<(string, NameParts), LoadError>)
    ensures r.Err? <==> p.name.Null? || p.name.Absent? || AllSpace(p.name.value)
    ensures r.Ok? ==> p.name == Present(r.value.0) && SplitName(r.value.0) == Some(r.value.1)
  {
    match p.name.GetOr("")
    case None => Err(NullName)
    case Some(name) =>
      match SplitName(name)
      case None => Err(BlankName)
      case Some(parts) => Ok((name, parts))
  }

  /** `p.get(key, [])` once iterating it has not raised. */
  function ListOrEmpty<T>(f: Field<seq<T>>): seq<T> {
    if f.Present? then f.value else []
  }

  /** The shot row of a nested shot: `shot_loc_x`/`shot_loc_y` go to
      loc_x/loc_y, and a key that is missing or null is stored as NULL. */
  function ShotRowOf(pid: Option<int>, s: ShotRecord): (row: ShotRow)
    ensures row.playerId == pid
    ensures row.points.None? <==> !s.points.Present?
    ensures row.actionType.None? <==> !s.actionType.Present?
    ensures row.locX.None? <==> !s.shotLocX.Present?
    ensures row.locY.None? <==> !s.shotLocY.Present?
    ensures row.gameId.None? <==> !s.gameId.Present?
    ensures s.points.Present? ==> row.points == Some(s.points.value)
    ensures s.actionType.Present? ==> row.actionType == Some(s.actionType.value)
    ensures s.shotLocX.Present? ==> row.locX == Some(s.shotLocX.value)
    ensures s.shotLocY.Present? ==> row.locY == Some(s.shotLocY.value)
    ensures s.gameId.Present? ==> row.gameId == Some(s.gameId.value)
  {
    ShotRow(pid, s.actionType.Get(), s.shotLocX.Get(), s.shotLocY.Get(), s.points.Get(), s.gameId.Get())
  }

  /** The pass row of a nested pass: the ball locations go to the four
      location columns, and `completed_pass`, `potential_assist` and
      `turnover` to is_completed, is_potential_assist and is_turnover; a key
      that is missing or null is stored as NULL. */
  function PassRowOf(pid: Option<int>, s: PassRecord): (row: PassRow)
    ensures row.playerId == pid
    ensures row.isCompleted.None? <==> !s.completedPass.Present?
    ensures row.isPotentialAssist.None? <==> !s.potentialAssist.Present?
    ensures row.isTurnover.None? <==> !s.turnover.Present?
    ensures row.actionType.None? <==> !s.actionType.Present?
    ensures row.startLocX.None? <==> !s.ballStartLocX.Present?
    ensures row.startLocY.None? <==> !s.ballStartLocY.Present?
    ensures row.endLocX.None? <==> !s.ballEndLocX.Present?
    ensures row.endLocY.None? <==> !s.ballEndLocY.Present?
    ensures row.gameId.None? <==> !s.gameId.Present?
    ensures s.completedPass.Present? ==> row.isCompleted == Some(s.completedPass.value)
    ensures s.potentialAssist.Present? ==> row.isPotentialAssist == Some(s.potentialAssist.value)
    ensures s.turnover.Present? ==> row.isTurnover == Some(s.turnover.value)
    ensures s.actionType.Present? ==> row.actionType == Some(s.actionType.value)
    ensures s.ballStartLocX.Present? ==> row.startLocX == Some(s.ballStartLocX.value)
    ensures s.ballStartLocY.Present? ==> row.startLocY == Some(s.ballStartLocY.value)
    ensures s.ballEndLocX.Present? ==> row.endLocX == Some(s.ballEndLocX.value)
    ensures s.ballEndLocY.Present? ==> row.endLocY == Some(s.ballEndLocY.value)
    ensures s.gameId.Present? ==> row.gameId == Some(s.gameId.value)
  {
    PassRow(pid, s.actionType.Get(),
      s.ballStartLocX.Get(), s.ballStartLocY.Get(), s.ballEndLocX.Get(), s.ballEndLocY.Get(),
      s.completedPass.Get(), s.potentialAssist.Get(), s.turnover.Get(), s.gameId.Get())
  }

  /** The turnover row of a nested turnover: `tov_loc_x`/`tov_loc_y` go to
      loc_x/loc_y, and a key that is missing or null is stored as NULL. */
  function TurnoverRowOf(pid: Option<int>, s: TurnoverRecord): (row: TurnoverRow)
    ensures row.playerId == pid
    ensures row.actionType.None? <==> !s.actionType.Present?
    ensures row.locX.None? <==> !s.tovLocX.Present?
    ensures row.locY.None? <==> !s.tovLocY.Present?
    ensures row.gameId.None? <==> !s.gameId.Present?
    ensures s.actionType.Present? ==> row.actionType == Some(s.actionType.value)
    ensures s.tovLocX.Present? ==> row.locX == Some(s.tovLocX.value)
    ensures s.tovLocY.Present? ==> row.locY == Some(s.tovLocY.value)
    ensures s.gameId.Present? ==> row.gameId == Some(s.gameId.value)
  {
    TurnoverRow(pid, s.actionType.Get(), s.tovLocX.Get(), s.tovLocY.Get(), s.gameId.Get())
  }

  /** The shot rows one player record appends: one per nested shot, in order,
      each carrying the owning player_id. */
  function ShotRows(pid: Option<int>, recs: seq<ShotRecord>): (rows: seq<ShotRow>)
    ensures |rows| == |recs|
    ensures forall k :: 0 <= k < |recs| ==> rows[k] == ShotRowOf(pid, recs[k])
  {
    if recs == [] then [] else ShotRows(pid, recs[..|recs| - 1]) + [ShotRowOf(pid, recs[|recs| - 1])]
  }

  function PassRows(pid: Option<int>, recs: seq<PassRecord>): (rows: seq<PassRow>)
    ensures |rows| == |recs|
    ensures forall k :: 0 <= k < |recs| ==> rows[k] == PassRowOf(pid, recs[k])
  {
    if recs == [] then [] else PassRows(pid, recs[..|recs| - 1]) + [PassRowOf(pid, recs[|recs| - 1])]
  }

  function TurnoverRows(pid: Option<int>, recs: seq<TurnoverRecord>): (rows: seq<TurnoverRow>)
    ensures |rows| == |recs|
    ensures forall k :: 0 <= k < |recs| ==> rows[k] == TurnoverRowOf(pid, recs[k])
  {
    if recs == [] then [] else TurnoverRows(pid, recs[..|recs| - 1]) + [TurnoverRowOf(pid, recs[|recs| - 1])]
  }

  /** The player row of a record whose display name `name` split into
      `parts`: the name is kept verbatim as full_name, and a missing or null
      `player_id` or `team_id` is stored as NULL. */
  function PlayerRowOf(p: PlayerRecord, name: string, parts: NameParts): (row: PlayerRow)
    ensures row.fullName == name && row.firstName == parts.first && row.lastName == parts.last
    ensures row.playerId.None? <==> !p.playerId.Present?
    ensures row.teamId.None? <==> !p.teamId.Present?
    ensures p.playerId.Present? ==> row.playerId == Some(p.playerId.value)
    ensures p.teamId.Present? ==> row.teamId == Some(p.teamId.value)
  {
    PlayerRow(p.playerId.Get(), parts.first, parts.last, name, p.teamId.Get())
  }

  /** Whether `ON CONFLICT (player_id)` fires: a NULL player_id never conflicts. */
  predicate PlayerKeyTaken(players: seq<PlayerRow>, row: PlayerRow) {
    row.playerId.Some? && HasPlayer(players, row.playerId.value)
  }

  /** `INSERT INTO player ... ON CONFLICT (player_id) DO NOTHING`: a skipped
      row is not checked against its foreign key. */
  function InsertPlayer(teams: seq<TeamRow>, players: seq<PlayerRow>, row: PlayerRow): (r: Result<seq<PlayerRow>, LoadError>)
    ensures r.Err? <==> !PlayerKeyTaken(players, row) && !TeamRef(teams, row.teamId)
    ensures r.Ok? && PlayerKeyTaken(players, row) ==> r.value == players
    ensures r.Ok? && !PlayerKeyTaken(players, row) ==> r.value == players + [row] && TeamRef(teams, row.teamId)
    ensures r.Ok? && PlayerKeysUnique(players) ==> PlayerKeysUnique(r.value)
    ensures r.Ok? ==> players <= r.value && PlayerRef(r.value, row.playerId)
  {
    if PlayerKeyTaken(players, row) then Ok(players)
    else if !TeamRef(teams, row.teamId) then Err(ForeignKeyViolation("player_team_id_fkey"))
    else
      var r := players + [row];
      assert r[|players|] == row;
      Ok(r)
  }

  /** Iterating `p.get(key, [])` raises only when the key holds null. */
  predicate EventListsIterable(p: PlayerRecord) {
    !p.shots.Null? && !p.passes.Null? && !p.turnovers.Null?
  }

  /** What one iteration of the player pass does to the player table: split
      the name, insert-or-ignore the row, then fail if a nested event list
      is null. The events themselves go to the other tables. */
  function PlayerRowStep(teams: seq<TeamRow>, players: seq<PlayerRow>, p: PlayerRecord): (r: Result<seq<PlayerRow>, LoadError>)
    ensures r.Ok? ==> players <= r.value && PlayerRef(r.value, p.playerId.Get())
    ensures r.Ok? && PlayerKeysUnique(players) ==> PlayerKeysUnique(r.value)
    ensures r.Ok? ==> forall i :: |players| <= i < |r.value| ==> TeamRef(teams, r.value[i].teamId)
  {
    match PlayerName(p)
    case Err(e) => Err(e)
    case Ok((name, parts)) =>
      match InsertPlayer(teams, players, PlayerRowOf(p, name, parts))
      case Err(e) => Err(e)
      case Ok(players') =>
        if p.shots.Null? then Err(NullEventList("shots"))
        else if p.passes.Null? then Err(NullEventList("passes"))
        else if p.turnovers.Null? then Err(NullEventList("turnovers"))
        else Ok(players')
  }

/** One iteration adds at most one player row: the record's name kept
      verbatim as full_name, split into first and last name, with the record's
      player_id and team_id. */
  lemma PlayerRowStepAppends(teams: seq<TeamRow>, players: seq<PlayerRow>, p: PlayerRecord, r: seq<PlayerRow>)
    requires PlayerRowStep(teams, players, p) == Ok(r)
    ensures |r| <= |players| + 1
    ensures |r| == |players| + 1 ==>
      var row := r[|players|];
      && p.name == Present(row.fullName)
      && SplitName(row.fullName) == Some(NameParts(row.firstName, row.lastName))
      && row.playerId == p.playerId.Get() && row.teamId == p.teamId.Get()
  {
  }

    /** The player table after the player pass, or the first error. */
  function PlayerRowsPass(teams: seq<TeamRow>, players: seq<PlayerRow>, ps: seq<PlayerRecord>): (r: Result<seq<PlayerRow>, LoadError>)
    ensures r.Ok? ==> players <= r.value
    ensures r.Ok? && PlayerKeysUnique(players) ==> PlayerKeysUnique(r.value)
    ensures r.Ok? ==> forall i :: |players| <= i < |r.value| ==> TeamRef(teams, r.value[i].teamId)
    decreases |ps|
  {
    if ps == [] then Ok(players)
    else
      match PlayerRowStep(teams, players, ps[0])
      case Err(e) => Err(e)
      case Ok(players') => PlayerRowsPass(teams, players', ps[1..])
  }

  /** The shot rows a whole player pass appends: those of each record in turn. */
  function PassShots(ps: seq<PlayerRecord>): seq<ShotRow> {
    if ps == [] then []
    else PassShots(ps[..|ps| - 1]) + ShotRows(ps[|ps| - 1].playerId.Get(), ListOrEmpty(ps[|ps| - 1].shots))
  }

  function PassPasses(ps: seq<PlayerRecord>): seq<PassRow> {
    if ps == [] then []
    else PassPasses(ps[..|ps| - 1]) + PassRows(ps[|ps| - 1].playerId.Get(), ListOrEmpty(ps[|ps| - 1].passes))
  }

  function PassTurnovers(ps: seq<PlayerRecord>): seq<TurnoverRow> {
    if ps == [] then []
    else PassTurnovers(ps[..|ps| - 1]) + TurnoverRows(ps[|ps| - 1].playerId.Get(), ListOrEmpty(ps[|ps| - 1].turnovers))
  }

  lemma AppendAssoc<T>(a: seq<T>, b: seq<T>, c: seq<T>)
    ensures a + b + c == a + (b + c)
  {
  }

  /** The event rows of a prefix of the pass grow by those of the next record. */
  lemma PassEventsSnoc(ps: seq<PlayerRecord>, i: int)
    requires 0 <= i < |ps|
    ensures PassShots(ps[..i + 1]) == PassShots(ps[..i]) + ShotRows(ps[i].playerId.Get(), ListOrEmpty(ps[i].shots))
    ensures PassPasses(ps[..i + 1]) == PassPasses(ps[..i]) + PassRows(ps[i].playerId.Get(), ListOrEmpty(ps[i].passes))
    ensures PassTurnovers(ps[..i + 1]) == PassTurnovers(ps[..i]) + TurnoverRows(ps[i].playerId.Get(), ListOrEmpty(ps[i].turnovers))
  {
    assert ps[..i + 1][..i] == ps[..i];
  }

  /** The player pass. It is rolled back as a whole when any record raises,
      so on success the player table is the result of the inserts and each
      event table has every nested event appended, whether its player row
      was inserted or ignored. */
  function PlayerPass(db: Tables, ps: seq<PlayerRecord>): (r: Result<Tables, LoadError>)
    ensures r.Ok? ==> r.value.teams == db.teams && r.value.games == db.games
  {
    match PlayerRowsPass(db.teams, db.players, ps)
    case Err(e) => Err(e)
    case Ok(players) =>
      Ok(db.(players := players,
             shots := db.shots + PassShots(ps),
             passes := db.passes + PassPasses(ps),
             turnovers := db.turnovers + PassTurnovers(ps)))
  }

  /** A player record goes through only with a splittable name and iterable event lists. */
  lemma PlayerRowStepOk(teams: seq<TeamRow>, players: seq<PlayerRow>, p: PlayerRecord, r: seq<PlayerRow>)
    requires PlayerRowStep(teams, players, p) == Ok(r)
    ensures PlayerName(p).Ok? && EventListsIterable(p)
  {
  }

  /** The first record of the player pass: its error ends the pass, its
      player table is where the rest of the pass starts. */
  lemma PlayerRowsPassUnfold(teams: seq<TeamRow>, players: seq<PlayerRow>, ps: seq<PlayerRecord>)
    requires ps != []
    ensures PlayerRowStep(teams, players, ps[0]).Err? ==>
      PlayerRowsPass(teams, players, ps) == Err(PlayerRowStep(teams, players, ps[0]).error)
    ensures PlayerRowStep(teams, players, ps[0]).Ok? ==>
      PlayerRowsPass(teams, players, ps) == PlayerRowsPass(teams, PlayerRowStep(teams, players, ps[0]).value, ps[1..])
  {
  }

  /** The player pass in terms of its player-row pass, for the loop that runs it. */
  lemma PlayerPassOfRows(db: Tables, ps: seq<PlayerRecord>)
    ensures PlayerRowsPass(db.teams, db.players, ps).Err? ==>
      PlayerPass(db, ps) == Err(PlayerRowsPass(db.teams, db.players, ps).error)
    ensures PlayerRowsPass(db.teams, db.players, ps).Ok? ==>
      PlayerPass(db, ps) == Ok(db.(players := PlayerRowsPass(db.teams, db.players, ps).value,
                                   shots := db.shots + PassShots(ps),
                                   passes := db.passes + PassPasses(ps),
                                   turnovers := db.turnovers + PassTurnovers(ps)))
  {
  }

  /** A successful pass took a successful first step. */
  lemma PlayerRowsPassHead(teams: seq<TeamRow>, players: seq<PlayerRow>, ps: seq<PlayerRecord>, r: seq<PlayerRow>)
    returns (p1: seq<PlayerRow>)
    requires ps != [] && PlayerRowsPass(teams, players, ps) == Ok(r)
    ensures PlayerRowStep(teams, players, ps[0]) == Ok(p1)
    ensures PlayerRowsPass(teams, p1, ps[1..]) == Ok(r)
  {
    p1 := PlayerRowStep(teams, players, ps[0]).value;
  }

  /** After a successful player pass every record had a splittable name and
      iterable event lists. */
  lemma {:induction false} PlayerRowsPassAdmits(teams: seq<TeamRow>, players: seq<PlayerRow>, ps: seq<PlayerRecord>, r: seq<PlayerRow>)
    requires PlayerRowsPass(teams, players, ps) == Ok(r)
    ensures forall k :: 0 <= k < |ps| ==> PlayerName(ps[k]).Ok? && EventListsIterable(ps[k])
    decreases |ps|
  {
    if ps != [] {
      var p1 := PlayerRowsPassHead(teams, players, ps, r);
      PlayerRowsPassAdmits(teams, p1, ps[1..], r);
      forall k | 0 <= k < |ps| ensures PlayerName(ps[k]).Ok? && EventListsIterable(ps[k]) {
        if k == 0 {
          PlayerRowStepOk(teams, players, ps[0], p1);
        } else {
          assert ps[k] == ps[1..][k - 1];
        }
      }
    }
  }

  /** After a successful player pass every non-null player_id of the records
      is in the table. */
  lemma {:induction false} PlayerRowsPassKeys(teams: seq<TeamRow>, players: seq<PlayerRow>, ps: seq<PlayerRecord>, r: seq<PlayerRow>)
    requires PlayerRowsPass(teams, players, ps) == Ok(r)
    ensures forall k :: 0 <= k < |ps| ==> PlayerRef(r, ps[k].playerId.Get())
    decreases |ps|
  {
    if ps != [] {
      var p1 := PlayerRowsPassHead(teams, players, ps, r);
      PlayerRowsPassKeys(teams, p1, ps[1..], r);
      forall k | 0 <= k < |ps| ensures PlayerRef(r, ps[k].playerId.Get()) {
        if k == 0 {
          PlayerRefGrows(p1, r, ps[0].playerId.Get());
        } else {
          assert ps[k] == ps[1..][k - 1];
        }
      }
    }
  }

  /** Records whose player_id is already present leave the table alone. */
  lemma {:induction false} PlayerRowsPassAllTaken(teams: seq<TeamRow>, players: seq<PlayerRow>, ps: seq<PlayerRecord>)
    requires forall k :: 0 <= k < |ps| ==>
      && PlayerName(ps[k]).Ok? && EventListsIterable(ps[k])
      && ps[k].playerId.Present? && HasPlayer(players, ps[k].playerId.value)
    ensures PlayerRowsPass(teams, players, ps) == Ok(players)
    decreases |ps|
  {
    if ps != [] {
      var (name, parts) := PlayerName(ps[0]).value;
      assert PlayerKeyTaken(players, PlayerRowOf(ps[0], name, parts));
      assert PlayerRowStep(teams, players, ps[0]) == Ok(players);
      forall k | 0 <= k < |ps[1..]|
        ensures && PlayerName(ps[1..][k]).Ok? && EventListsIterable(ps[1..][k])
                && ps[1..][k].playerId.Present? && HasPlayer(players, ps[1..][k].playerId.value)
      {
        assert ps[1..][k] == ps[k + 1];
      }
      PlayerRowsPassAllTaken(teams, players, ps[1..]);
    }
  }

  /** A second player pass over records with non-null player_ids finds
      every player already there and leaves the player table unchanged. */
  lemma PlayerRowsPassIdempotent(teams: seq<TeamRow>, players: seq<PlayerRow>, ps: seq<PlayerRecord>, r: seq<PlayerRow>)
    requires PlayerRowsPass(teams, players, ps) == Ok(r)
    requires forall k :: 0 <= k < |ps| ==> ps[k].playerId.Present?
    ensures PlayerRowsPass(teams, r, ps) == Ok(r)
  {
    PlayerRowsPassAdmits(teams, players, ps, r);
    PlayerRowsPassKeys(teams, players, ps, r);
    PlayerRowsPassAllTaken(teams, r, ps);
  }

  /** Loading the same players again, without a reset, leaves the player
      table as it is but appends every nested event a second time. */
  lemma PlayerPassReload(db: Tables, ps: seq<PlayerRecord>)
    requires PlayerPass(db, ps).Ok?
    requires forall k :: 0 <= k < |ps| ==> ps[k].playerId.Present?
    ensures var db1 := PlayerPass(db, ps).value;
      PlayerPass(db1, ps) == Ok(db1.(shots := db1.shots + PassShots(ps),
                                     passes := db1.passes + PassPasses(ps),
                                     turnovers := db1.turnovers + PassTurnovers(ps)))
  {
    PlayerRowsPassIdempotent(db.teams, db.players, ps, PlayerPass(db, ps).value.players);
  }

  /** Every shot row a player pass appends names the player_id of one of the records. */
  lemma {:induction false} PassShotsOwners(players: seq<PlayerRow>, ps: seq<PlayerRecord>)
    requires forall k :: 0 <= k < |ps| ==> PlayerRef(players, ps[k].playerId.Get())
    ensures forall i :: 0 <= i < |PassShots(ps)| ==> PlayerRef(players, PassShots(ps)[i].playerId)
    decreases |ps|
  {
    if ps != [] {
      var n := |ps| - 1;
      PassShotsOwners(players, ps[..n]);
      var pre, last := PassShots(ps[..n]), ShotRows(ps[n].playerId.Get(), ListOrEmpty(ps[n].shots));
      forall i | 0 <= i < |PassShots(ps)| ensures PlayerRef(players, PassShots(ps)[i].playerId) {
        if i >= |pre| { assert PassShots(ps)[i] == last[i - |pre|]; }
      }
    }
  }

  lemma {:induction false} PassPassesOwners(players: seq<PlayerRow>, ps: seq<PlayerRecord>)
    requires forall k :: 0 <= k < |ps| ==> PlayerRef(players, ps[k].playerId.Get())
    ensures forall i :: 0 <= i < |PassPasses(ps)| ==> PlayerRef(players, PassPasses(ps)[i].playerId)
    decreases |ps|
  {
    if ps != [] {
      var n := |ps| - 1;
      PassPassesOwners(players, ps[..n]);
      var pre, last := PassPasses(ps[..n]), PassRows(ps[n].playerId.Get(), ListOrEmpty(ps[n].passes));
      forall i | 0 <= i < |PassPasses(ps)| ensures PlayerRef(players, PassPasses(ps)[i].playerId) {
        if i >= |pre| { assert PassPasses(ps)[i] == last[i - |pre|]; }
      }
    }
  }

  lemma {:induction false} PassTurnoversOwners(players: seq<PlayerRow>, ps: seq<PlayerRecord>)
    requires forall k :: 0 <= k < |ps| ==> PlayerRef(players, ps[k].playerId.Get())
    ensures forall i :: 0 <= i < |PassTurnovers(ps)| ==> PlayerRef(players, PassTurnovers(ps)[i].playerId)
    decreases |ps|
  {
    if ps != [] {
      var n := |ps| - 1;
      PassTurnoversOwners(players, ps[..n]);
      var pre, last := PassTurnovers(ps[..n]), TurnoverRows(ps[n].playerId.Get(), ListOrEmpty(ps[n].turnovers));
      forall i | 0 <= i < |PassTurnovers(ps)| ensures PlayerRef(players, PassTurnovers(ps)[i].playerId) {
        if i >= |pre| { assert PassTurnovers(ps)[i] == last[i - |pre|]; }
      }
    }
  }

  /** Appending rows whose player exists keeps the player foreign key of an event table. */
  lemma ShotRefsAppended(players: seq<PlayerRow>, more: seq<PlayerRow>, rows: seq<ShotRow>, extra: seq<ShotRow>)
    requires players <= more
    requires forall i :: 0 <= i < |rows| ==> PlayerRef(players, rows[i].playerId)
    requires forall i :: 0 <= i < |extra| ==> PlayerRef(more, extra[i].playerId)
    ensures forall i :: 0 <= i < |rows + extra| ==> PlayerRef(more, (rows + extra)[i].playerId)
  {
    forall i | 0 <= i < |rows + extra| ensures PlayerRef(more, (rows + extra)[i].playerId) {
      if i < |rows| { PlayerRefGrows(players, more, rows[i].playerId); }
    }
  }

  lemma PassRefsAppended(players: seq<PlayerRow>, more: seq<PlayerRow>, rows: seq<PassRow>, extra: seq<PassRow>)
    requires players <= more
    requires forall i :: 0 <= i < |rows| ==> PlayerRef(players, rows[i].playerId)
    requires forall i :: 0 <= i < |extra| ==> PlayerRef(more, extra[i].playerId)
    ensures forall i :: 0 <= i < |rows + extra| ==> PlayerRef(more, (rows + extra)[i].playerId)
  {
    forall i | 0 <= i < |rows + extra| ensures PlayerRef(more, (rows + extra)[i].playerId) {
      if i < |rows| { PlayerRefGrows(players, more, rows[i].playerId); }
    }
  }

  lemma TurnoverRefsAppended(players: seq<PlayerRow>, more: seq<PlayerRow>, rows: seq<TurnoverRow>, extra: seq<TurnoverRow>)
    requires players <= more
    requires forall i :: 0 <= i < |rows| ==> PlayerRef(players, rows[i].playerId)
    requires forall i :: 0 <= i < |extra| ==> PlayerRef(more, extra[i].playerId)
    ensures forall i :: 0 <= i < |rows + extra| ==> PlayerRef(more, (rows + extra)[i].playerId)
  {
    forall i | 0 <= i < |rows + extra| ensures PlayerRef(more, (rows + extra)[i].playerId) {
      if i < |rows| { PlayerRefGrows(players, more, rows[i].playerId); }
    }
  }

  /** The player pass keeps every constraint of the schema: player_id stays
      unique, each new player's team exists, and each appended event's
      player exists, because its own record inserted or found it. */
  lemma PlayerPassKeepsValid(db: Tables, ps: seq<PlayerRecord>, r: Tables)
    requires db.Valid()
    requires PlayerPass(db, ps) == Ok(r)
    ensures r.Valid()
  {
    assert PlayerRowsPass(db.teams, db.players, ps) == Ok(r.players);
    PlayerRowsPassKeys(db.teams, db.players, ps, r.players);
    PassShotsOwners(r.players, ps);
    PassPassesOwners(r.players, ps);
    PassTurnoversOwners(r.players, ps);
    ShotRefsAppended(db.players, r.players, db.shots, PassShots(ps));
    PassRefsAppended(db.players, r.players, db.passes, PassPasses(ps));
    TurnoverRefsAppended(db.players, r.players, db.turnovers, PassTurnovers(ps));
    forall i | 0 <= i < |r.players| ensures TeamRef(r.teams, r.players[i].teamId) {
      if i < |db.players| { assert r.players[i] == db.players[i]; }
    }
  }

  // ---------------------------------------------------------------- games

  /** The game row of a record: rebounds and assists default to 0 when the
      key is missing; every other missing key, and any null, is NULL. */
  function GameRowOf(g: GameRecord): (row: GameRow)
    ensures g.homeRebounds.Absent? ==> row.homeRebounds == Some(0)
    ensures g.awayRebounds.Absent? ==> row.awayRebounds == Some(0)
    ensures g.homeAssists.Absent? ==> row.homeAssists == Some(0)
    ensures g.awayAssists.Absent? ==> row.awayAssists == Some(0)
    ensures row.homeRebounds.None? <==> g.homeRebounds.Null?
    ensures row.awayRebounds.None? <==> g.awayRebounds.Null?
    ensures row.homeAssists.None? <==> g.homeAssists.Null?
    ensures row.awayAssists.None? <==> g.awayAssists.Null?
    ensures g.homeRebounds.Present? ==> row.homeRebounds == Some(g.homeRebounds.value)
    ensures g.awayRebounds.Present? ==> row.awayRebounds == Some(g.awayRebounds.value)
    ensures g.homeAssists.Present? ==> row.homeAssists == Some(g.homeAssists.value)
    ensures g.awayAssists.Present? ==> row.awayAssists == Some(g.awayAssists.value)
    ensures g.id.Present? ==> row.gameId == Some(g.id.value)
    ensures g.date.Present? ==> row.date == Some(g.date.value)
    ensures g.homeTeamId.Present? ==> row.homeTeamId == Some(g.homeTeamId.value)
    ensures g.awayTeamId.Present? ==> row.awayTeamId == Some(g.awayTeamId.value)
    ensures g.homeScore.Present? ==> row.homeScore == Some(g.homeScore.value)
    ensures g.awayScore.Present? ==> row.awayScore == Some(g.awayScore.value)
    ensures row.gameId.None? <==> !g.id.Present?
    ensures row.date.None? <==> !g.date.Present?
    ensures row.homeTeamId.None? <==> !g.homeTeamId.Present?
    ensures row.awayTeamId.None? <==> !g.awayTeamId.Present?
    ensures row.homeScore.None? <==> !g.homeScore.Present?
    ensures row.awayScore.None? <==> !g.awayScore.Present?
  {
    GameRow(g.id.Get(), g.date.Get(), g.homeTeamId.Get(), g.awayTeamId.Get(),
      g.homeScore.Get(), g.awayScore.Get(),
      g.homeRebounds.GetOr(0), g.awayRebounds.GetOr(0),
      g.homeAssists.GetOr(0), g.awayAssists.GetOr(0))
  }

  /** Whether `ON CONFLICT (game_id)` fires: a NULL game_id never conflicts. */
  predicate GameKeyTaken(games: seq<GameRow>, g: GameRecord) {
    g.id.Present? && HasGame(games, g.id.value)
  }

  /** `INSERT INTO game ... ON CONFLICT (game_id) DO NOTHING`. */
  function InsertGame(teams: seq<TeamRow>, games: seq<GameRow>, g: GameRecord): (r: Result<seq<GameRow>, LoadError>)
    ensures r.Err? <==>
      !GameKeyTaken(games, g) && !(TeamRef(teams, g.homeTeamId.Get()) && TeamRef(teams, g.awayTeamId.Get()))
    ensures r.Ok? && GameKeyTaken(games, g) ==> r.value == games
    ensures r.Ok? && !GameKeyTaken(games, g) ==> r.value == games + [GameRowOf(g)]
    ensures r.Ok? && GameKeysUnique(games) ==> GameKeysUnique(r.value)
    ensures r.Ok? ==> games <= r.value
    ensures r.Ok? ==> forall i :: |games| <= i < |r.value| ==>
      TeamRef(teams, r.value[i].homeTeamId) && TeamRef(teams, r.value[i].awayTeamId)
    ensures r.Ok? && g.id.Present? ==> HasGame(r.value, g.id.value)
  {
    var row := GameRowOf(g);
    if GameKeyTaken(games, g) then Ok(games)
    else if !TeamRef(teams, row.homeTeamId) then Err(ForeignKeyViolation("game_home_team_id_fkey"))
    else if !TeamRef(teams, row.awayTeamId) then Err(ForeignKeyViolation("game_away_team_id_fkey"))
    else
      var r := games + [row];
      assert r[|games|] == row;
      Ok(r)
  }

  /** The game pass; the first error aborts it. */
  function GamePass(teams: seq<TeamRow>, games: seq<GameRow>, gs: seq<GameRecord>): (r: Result<seq<GameRow>, LoadError>)
    ensures r.Ok? ==> games <= r.value
    ensures r.Ok? && GameKeysUnique(games) ==> GameKeysUnique(r.value)
    ensures r.Ok? ==> forall i :: |games| <= i < |r.value| ==>
      TeamRef(teams, r.value[i].homeTeamId) && TeamRef(teams, r.value[i].awayTeamId)
    decreases |gs|
  {
    if gs == [] then Ok(games)
    else
      match InsertGame(teams, games, gs[0])
      case Err(e) => Err(e)
      case Ok(g1) => GamePass(teams, g1, gs[1..])
  }

  /** After a successful game pass every non-null game "id" is in the table. */
  lemma {:induction false} GamePassKeys(teams: seq<TeamRow>, games: seq<GameRow>, gs: seq<GameRecord>)
    requires GamePass(teams, games, gs).Ok?
    ensures forall k :: 0 <= k < |gs| && gs[k].id.Present? ==> HasGame(GamePass(teams, games, gs).value, gs[k].id.value)
    decreases |gs|
  {
    if gs != [] {
      var g1 := InsertGame(teams, games, gs[0]).value;
      var r := GamePass(teams, games, gs).value;
      GamePassKeys(teams, g1, gs[1..]);
      forall k | 0 <= k < |gs| && gs[k].id.Present? ensures HasGame(r, gs[k].id.value) {
        if k == 0 {
          var j :| 0 <= j < |g1| && g1[j].gameId == Some(gs[0].id.value);
          assert r[j] == g1[j];
        } else {
          assert gs[k] == gs[1..][k - 1];
        }
      }
    }
  }

  /** Records whose game_id is already present change nothing. */
  lemma {:induction false} GamePassAllTaken(teams: seq<TeamRow>, games: seq<GameRow>, gs: seq<GameRecord>)
    requires forall k :: 0 <= k < |gs| ==> GameKeyTaken(games, gs[k])
    ensures GamePass(teams, games, gs) == Ok(games)
    decreases |gs|
  {
    if gs != [] {
      assert InsertGame(teams, games, gs[0]) == Ok(games);
      forall k | 0 <= k < |gs[1..]| ensures GameKeyTaken(games, gs[1..][k]) {
        assert gs[1..][k] == gs[k + 1];
      }
      GamePassAllTaken(teams, games, gs[1..]);
    }
  }

  /** A second game pass over records with non-null ids changes nothing. */
  lemma GamePassIdempotent(teams: seq<TeamRow>, games: seq<GameRow>, gs: seq<GameRecord>)
    requires GamePass(teams, games, gs).Ok?
    requires forall k :: 0 <= k < |gs| ==> gs[k].id.Present?
    ensures GamePass(teams, GamePass(teams, games, gs).value, gs) == GamePass(teams, games, gs)
  {
    GamePassKeys(teams, games, gs);
    GamePassAllTaken(teams, GamePass(teams, games, gs).value, gs);
  }

  // ----------------------------------------------------------- whole load

  /** The store after a load, and the error that stopped it, if any. */
  datatype LoadOutcome = LoadOutcome(db: Tables, error: Option<LoadError>)

  /** No event row was added. */
  predicate EventsUntouched(db: Tables, r: Tables) {
    r.shots == db.shots && r.passes == db.passes && r.turnovers == db.turnovers
  }

  /** Every nested event of the player records was added, in all three event tables. */
  predicate EventsAppended(db: Tables, ps: seq<PlayerRecord>, r: Tables) {
    && r.shots == db.shots + PassShots(ps)
    && r.passes == db.passes + PassPasses(ps)
    && r.turnovers == db.turnovers + PassTurnovers(ps)
  }

  /** `load_json_data`: the team pass, the player pass, the game pass, each
      committed when it completes; the first pass that raises is rolled back
      and ends the load. */
  function Load(db: Tables, ts: seq<TeamRecord>, ps: seq<PlayerRecord>, gs: seq<GameRecord>): (r: LoadOutcome)
    ensures EventsUntouched(db, r.db) || EventsAppended(db, ps, r.db)
    ensures r.error.None? ==> EventsAppended(db, ps, r.db)
  {
    match TeamPass(db.teams, ts)
    case Err(e) => LoadOutcome(db, Some(e))
    case Ok(teams) =>
      var db1 := db.(teams := teams);
      match PlayerPass(db1, ps)
      case Err(e) => LoadOutcome(db1, Some(e))
      case Ok(db2) =>
        match GamePass(db2.teams, db2.games, gs)
        case Err(e) => LoadOutcome(db2, Some(e))
        case Ok(games) => LoadOutcome(db2.(games := games), None)
  }

  /** The team pass keeps the schema's constraints. */
  lemma TeamPassKeepsValid(db: Tables, ts: seq<TeamRecord>)
    requires db.Valid()
    requires TeamPass(db.teams, ts).Ok?
    ensures db.(teams := TeamPass(db.teams, ts).value).Valid()
  {
    var t := TeamPass(db.teams, ts).value;
    forall i | 0 <= i < |db.players| ensures TeamRef(t, db.players[i].teamId) {
      TeamRefGrows(db.teams, t, db.players[i].teamId);
    }
    forall i | 0 <= i < |db.games| ensures TeamRef(t, db.games[i].homeTeamId) && TeamRef(t, db.games[i].awayTeamId) {
      TeamRefGrows(db.teams, t, db.games[i].homeTeamId);
      TeamRefGrows(db.teams, t, db.games[i].awayTeamId);
    }
  }

  /** The game pass keeps the schema's constraints. */
  lemma GamePassKeepsValid(db: Tables, gs: seq<GameRecord>)
    requires db.Valid()
    requires GamePass(db.teams, db.games, gs).Ok?
    ensures db.(games := GamePass(db.teams, db.games, gs).value).Valid()
  {
    var g := GamePass(db.teams, db.games, gs).value;
    forall i | 0 <= i < |g| ensures TeamRef(db.teams, g[i].homeTeamId) && TeamRef(db.teams, g[i].awayTeamId) {
      if i < |db.games| { assert g[i] == db.games[i]; }
    }
  }

  /** Whatever it is fed, and wherever it stops, a load leaves a store that
      satisfies every UNIQUE and REFERENCES constraint of the schema. */
/** A load never removes or rewrites a row: every table it ends with starts with the rows it began with. */
  lemma LoadGrows(db: Tables, ts: seq<TeamRecord>, ps: seq<PlayerRecord>, gs: seq<GameRecord>)
    ensures var r := Load(db, ts, ps, gs).db;
      && db.teams <= r.teams && db.players <= r.players && db.games <= r.games
      && db.shots <= r.shots && db.passes <= r.passes && db.turnovers <= r.turnovers
  {
  }

    lemma LoadKeepsValid(db: Tables, ts: seq<TeamRecord>, ps: seq<PlayerRecord>, gs: seq<GameRecord>)
    requires db.Valid()
    ensures Load(db, ts, ps, gs).db.Valid()
  {
    if TeamPass(db.teams, ts).Ok? {
      TeamPassKeepsValid(db, ts);
      var db1 := db.(teams := TeamPass(db.teams, ts).value);
      var r2 := PlayerPass(db1, ps);
      if r2.Ok? {
        PlayerPassKeepsValid(db1, ps, r2.value);
        if GamePass(r2.value.teams, r2.value.games, gs).Ok? {
          GamePassKeepsValid(r2.value, gs);
        }
      }
    }
  }

  /** A load that completes runs each pass to completion: the team, player
      and game tables are what the three passes left, and every nested event
      is appended. */
  lemma LoadCompleted(db: Tables, ts: seq<TeamRecord>, ps: seq<PlayerRecord>, gs: seq<GameRecord>)
    returns (teams: seq<TeamRow>, players: seq<PlayerRow>, games: seq<GameRow>)
    requires Load(db, ts, ps, gs).error.None?
    ensures TeamPass(db.teams, ts) == Ok(teams)
    ensures PlayerRowsPass(teams, db.players, ps) == Ok(players)
    ensures GamePass(teams, db.games, gs) == Ok(games)
    ensures Load(db, ts, ps, gs).db ==
      Tables(teams, players, games, db.shots + PassShots(ps), db.passes + PassPasses(ps), db.turnovers + PassTurnovers(ps))
  {
    teams := TeamPass(db.teams, ts).value;
    players := PlayerRowsPass(teams, db.players, ps).value;
    games := GamePass(teams, db.games, gs).value;
  }

  /** Conversely, three passes that complete make a load that completes. */
  lemma LoadOfPasses(db: Tables, ts: seq<TeamRecord>, ps: seq<PlayerRecord>, gs: seq<GameRecord>,
                     teams: seq<TeamRow>, players: seq<PlayerRow>, games: seq<GameRow>)
    requires TeamPass(db.teams, ts) == Ok(teams)
    requires PlayerRowsPass(teams, db.players, ps) == Ok(players)
    requires GamePass(teams, db.games, gs) == Ok(games)
    ensures Load(db, ts, ps, gs) == LoadOutcome(
      Tables(teams, players, games, db.shots + PassShots(ps), db.passes + PassPasses(ps), db.turnovers + PassTurnovers(ps)),
      None)
  {
  }

  /** Loading the same records twice without a reset: team, player and game
      are what the first load left (insert-or-ignore on non-null keys), while
      every shot, pass and turnover is appended a second time. */
  lemma LoadTwice(db: Tables, ts: seq<TeamRecord>, ps: seq<PlayerRecord>, gs: seq<GameRecord>)
    requires Load(db, ts, ps, gs).error.None?
    requires forall k :: 0 <= k < |ts| ==> ts[k].teamId.Present?
    requires forall k :: 0 <= k < |ps| ==> ps[k].playerId.Present?
    requires forall k :: 0 <= k < |gs| ==> gs[k].id.Present?
    ensures var once := Load(db, ts, ps, gs).db;
      && once.shots == db.shots + PassShots(ps)
      && once.passes == db.passes + PassPasses(ps)
      && once.turnovers == db.turnovers + PassTurnovers(ps)
      && Load(once, ts, ps, gs) == LoadOutcome(once.(shots := once.shots + PassShots(ps),
                                                     passes := once.passes + PassPasses(ps),
                                                     turnovers := once.turnovers + PassTurnovers(ps)), None)
  {
    var teams, players, games := LoadCompleted(db, ts, ps, gs);
    var once := Load(db, ts, ps, gs).db;
    TeamPassIdempotent(db.teams, ts);
    PlayerRowsPassIdempotent(teams, db.players, ps, players);
    GamePassIdempotent(teams, db.games, gs);
    LoadOfPasses(once, ts, ps, gs, teams, players, games);
  }
}
