/**
 * The running backend: the six tables as the state of one store object,
 * `load_json_data` as three loops that insert into it, `get_player_summary`
 * as the loop over the four categories that accumulates the response, and
 * the three listing endpoints. Each method is proved against the functions
 * of the Loader and Aggregator modules.
 */
module Backend {
  import opened Wrappers
  import opened Records
  import opened Schema
  import opened Loader
  import opened Aggregator

  /** The player totals of a prefix of the category blocks, as the `+=`
      lines have accumulated them. */
  function Accumulated(blocks: seq<CategorySummary>): Metrics {
    if blocks == [] then Zero
    else Accumulated(blocks[..|blocks| - 1]).Add(blocks[|blocks| - 1].metrics)
  }

  /** The blocks computed so far are those of the first categories. */
  predicate BlocksOf(shotRows: seq<ShotRow>, passRows: seq<PassRow>, turnoverRows: seq<TurnoverRow>, pid: int,
                     blocks: seq<CategorySummary>)
  {
    |blocks| <= |Categories| &&
    (blocks != [] ==>
      && BlocksOf(shotRows, passRows, turnoverRows, pid, blocks[..|blocks| - 1])
      && CategoryBlock(shotRows, passRows, turnoverRows, pid, Categories[|blocks| - 1]) == Ok(blocks[|blocks| - 1]))
  }

  lemma BlocksOfSnoc(shotRows: seq<ShotRow>, passRows: seq<PassRow>, turnoverRows: seq<TurnoverRow>, pid: int,
                     blocks: seq<CategorySummary>, b: CategorySummary)
    requires BlocksOf(shotRows, passRows, turnoverRows, pid, blocks) && |blocks| < |Categories|
    requires CategoryBlock(shotRows, passRows, turnoverRows, pid, Categories[|blocks|]) == Ok(b)
    ensures BlocksOf(shotRows, passRows, turnoverRows, pid, blocks + [b])
  {
    assert (blocks + [b])[..|blocks|] == blocks;
  }

  lemma BlocksOfFour(shotRows: seq<ShotRow>, passRows: seq<PassRow>, turnoverRows: seq<TurnoverRow>, pid: int,
                     blocks: seq<CategorySummary>)
    requires BlocksOf(shotRows, passRows, turnoverRows, pid, blocks) && |blocks| == |Categories|
    ensures forall j :: 0 <= j < |Categories| ==>
      CategoryBlock(shotRows, passRows, turnoverRows, pid, Categories[j]) == Ok(blocks[j])
  {
    assert blocks[..3][..2] == blocks[..2] && blocks[..2][..1] == blocks[..1];
    assert BlocksOf(shotRows, passRows, turnoverRows, pid, blocks[..3]);
    assert BlocksOf(shotRows, passRows, turnoverRows, pid, blocks[..2]);
    assert BlocksOf(shotRows, passRows, turnoverRows, pid, blocks[..1]);
  }

  lemma AccumulatedSnoc(blocks: seq<CategorySummary>, b: CategorySummary)
    ensures Accumulated(blocks + [b]) == Accumulated(blocks).Add(b.metrics)
  {
    assert (blocks + [b])[..|blocks|] == blocks;
  }

  lemma AccumulatedFour(blocks: seq<CategorySummary>)
    requires |blocks| == 4
    ensures Accumulated(blocks) ==
      Zero.Add(blocks[0].metrics).Add(blocks[1].metrics).Add(blocks[2].metrics).Add(blocks[3].metrics)
  {
    assert blocks[..3][..2] == blocks[..2] && blocks[..2][..1] == blocks[..1] && blocks[..1][..0] == [];
    assert Accumulated(blocks[..1]) == Zero.Add(blocks[0].metrics);
    assert Accumulated(blocks[..2]) == Accumulated(blocks[..1]).Add(blocks[1].metrics);
    assert Accumulated(blocks[..3]) == Accumulated(blocks[..2]).Add(blocks[2].metrics);
  }

  /** The database behind the endpoints. */
  class Store {
    var teams: seq<TeamRow>
    var players: seq<PlayerRow>
    var games: seq<GameRow>
    var shots: seq<ShotRow>
    var passes: seq<PassRow>
    var turnovers: seq<TurnoverRow>

    /** The six tables as one value. */
    function Snapshot(): Tables
      reads this
    {
      Tables(teams, players, games, shots, passes, turnovers)
    }

    /** Every UNIQUE and REFERENCES constraint of the schema holds. */
    ghost predicate Valid()
      reads this
    {
      Snapshot().Valid()
    }

    /** The tables right after the DROP and CREATE statements. */
    constructor ()
      ensures Snapshot() == Empty
      ensures Valid()
    {
      teams, players, games := [], [], [];
      shots, passes, turnovers := [], [], [];
    }

    /** Rolling back a pass: the tables as they were committed. */
    method Restore(saved: Tables)
      modifies this
      ensures Snapshot() == saved
    {
      teams, players, games := saved.teams, saved.players, saved.games;
      shots, passes, turnovers := saved.shots, saved.passes, saved.turnovers;
    }

    /** The team loop: one insert-or-ignore per record; the first error rolls
        the pass back. */
    method LoadTeams(ts: seq<TeamRecord>) returns (err: Option<LoadError>)
      modifies this
      ensures TeamPass(old(teams), ts).Ok? ==>
        err.None? && Snapshot() == old(Snapshot()).(teams := TeamPass(old(teams), ts).value)
      ensures TeamPass(old(teams), ts).Err? ==>
        err == Some(TeamPass(old(teams), ts).error) && Snapshot() == old(Snapshot())
    {
      var saved := Snapshot();
      var i := 0;
      while i < |ts|
        invariant 0 <= i <= |ts|
        invariant TeamPass(saved.teams, ts) == TeamPass(teams, ts[i..])
        invariant Snapshot() == saved.(teams := teams)
      {
        assert ts[i..][0] == ts[i] && ts[i..][1..] == ts[i + 1..];
        match InsertTeam(teams, ts[i])
        case Err(e) =>
          Restore(saved);
          return Some(e);
        case Ok(t1) =>
          teams := t1;
        i := i + 1;
      }
      assert ts[i..] == [];
      err := None;
    }

    /** `for s in p.get("shots", [])`: one row per nested shot. */
    method AppendShots(pid: Option<int>, recs: seq<ShotRecord>)
      modifies this
      ensures Snapshot() == old(Snapshot()).(shots := old(shots) + ShotRows(pid, recs))
    {
      for j := 0 to |recs|
        invariant Snapshot() == old(Snapshot()).(shots := old(shots) + ShotRows(pid, recs[..j]))
      {
        assert recs[..j + 1][..j] == recs[..j];
        shots := shots + [ShotRowOf(pid, recs[j])];
      }
      assert recs[..|recs|] == recs;
    }

    /** `for ps in p.get("passes", [])`. */
    method AppendPasses(pid: Option<int>, recs: seq<PassRecord>)
      modifies this
      ensures Snapshot() == old(Snapshot()).(passes := old(passes) + PassRows(pid, recs))
    {
      for j := 0 to |recs|
        invariant Snapshot() == old(Snapshot()).(passes := old(passes) + PassRows(pid, recs[..j]))
      {
        assert recs[..j + 1][..j] == recs[..j];
        passes := passes + [PassRowOf(pid, recs[j])];
      }
      assert recs[..|recs|] == recs;
    }

    /** `for t in p.get("turnovers", [])`. */
    method AppendTurnovers(pid: Option<int>, recs: seq<TurnoverRecord>)
      modifies this
      ensures Snapshot() == old(Snapshot()).(turnovers := old(turnovers) + TurnoverRows(pid, recs))
    {
      for j := 0 to |recs|
        invariant Snapshot() == old(Snapshot()).(turnovers := old(turnovers) + TurnoverRows(pid, recs[..j]))
      {
        assert recs[..j + 1][..j] == recs[..j];
        turnovers := turnovers + [TurnoverRowOf(pid, recs[j])];
      }
      assert recs[..|recs|] == recs;
    }

    /** One iteration of the player loop: split the name, insert-or-ignore
        the player, then append its shots, passes and turnovers. After an
        error the tables are left as they are; the caller rolls them back. */
    method LoadPlayer(p: PlayerRecord) returns (err: Option<LoadError>)
      modifies this
      ensures PlayerRowStep(old(teams), old(players), p).Err? ==> err == Some(PlayerRowStep(old(teams), old(players), p).error)
      ensures PlayerRowStep(old(teams), old(players), p).Ok? ==>
        && err.None?
        && teams == old(teams) && games == old(games)
        && players == PlayerRowStep(old(teams), old(players), p).value
        && shots == old(shots) + ShotRows(p.playerId.Get(), ListOrEmpty(p.shots))
        && passes == old(passes) + PassRows(p.playerId.Get(), ListOrEmpty(p.passes))
        && turnovers == old(turnovers) + TurnoverRows(p.playerId.Get(), ListOrEmpty(p.turnovers))
    {
      var named := PlayerName(p);
      if named.Err? {
        return Some(named.error);
      }
      var (name, parts) := named.value;
      var inserted := InsertPlayer(teams, players, PlayerRowOf(p, name, parts));
      if inserted.Err? {
        return Some(inserted.error);
      }
      players := inserted.value;
      var pid := p.playerId.Get();
      if p.shots.Null? {
        return Some(NullEventList("shots"));
      }
      AppendShots(pid, ListOrEmpty(p.shots));
      if p.passes.Null? {
        return Some(NullEventList("passes"));
      }
      AppendPasses(pid, ListOrEmpty(p.passes));
      if p.turnovers.Null? {
        return Some(NullEventList("turnovers"));
      }
      AppendTurnovers(pid, ListOrEmpty(p.turnovers));
      err := None;
    }

    /** The store after the first `i` records of a player pass that began at `saved`. */
    ghost predicate PlayersLoadedUpTo(saved: Tables, ps: seq<PlayerRecord>, i: int)
      requires 0 <= i <= |ps|
      reads this
    {
      && PlayerRowsPass(saved.teams, saved.players, ps) == PlayerRowsPass(teams, players, ps[i..])
      && teams == saved.teams && games == saved.games
      && shots == saved.shots + PassShots(ps[..i])
      && passes == saved.passes + PassPasses(ps[..i])
      && turnovers == saved.turnovers + PassTurnovers(ps[..i])
    }

    /** One turn of the player loop: record `i` either raises the error that
        ends the whole pass or moves the store on to the next record. */
    method LoadPlayerAt(ghost saved: Tables, ps: seq<PlayerRecord>, i: int) returns (err: Option<LoadError>)
      requires 0 <= i < |ps| && PlayersLoadedUpTo(saved, ps, i)
      modifies this
      ensures err.Some? ==> PlayerPass(saved, ps) == Err(err.value)
      ensures err.None? ==> PlayersLoadedUpTo(saved, ps, i + 1)
    {
      PlayerPassOfRows(saved, ps);
      assert ps[i..][0] == ps[i] && ps[i..][1..] == ps[i + 1..];
      PlayerRowsPassUnfold(teams, players, ps[i..]);
      PassEventsSnoc(ps, i);
      var p := ps[i];
      AppendAssoc(saved.shots, PassShots(ps[..i]), ShotRows(p.playerId.Get(), ListOrEmpty(p.shots)));
      AppendAssoc(saved.passes, PassPasses(ps[..i]), PassRows(p.playerId.Get(), ListOrEmpty(p.passes)));
      AppendAssoc(saved.turnovers, PassTurnovers(ps[..i]), TurnoverRows(p.playerId.Get(), ListOrEmpty(p.turnovers)));
      err := LoadPlayer(p);
    }

    /** A player pass that has gone through every record has produced the store. */
    lemma PlayersLoaded(saved: Tables, ps: seq<PlayerRecord>)
      requires PlayersLoadedUpTo(saved, ps, |ps|)
      ensures PlayerPass(saved, ps) == Ok(Snapshot())
    {
      PlayerPassOfRows(saved, ps);
      assert ps[|ps|..] == [];
      assert ps[..|ps|] == ps;
    }

    /** The player loop; the first error rolls the pass back. */
    method LoadPlayers(ps: seq<PlayerRecord>) returns (err: Option<LoadError>)
      modifies this
      ensures PlayerPass(old(Snapshot()), ps).Ok? ==> err.None? && Snapshot() == PlayerPass(old(Snapshot()), ps).value
      ensures PlayerPass(old(Snapshot()), ps).Err? ==>
        err == Some(PlayerPass(old(Snapshot()), ps).error) && Snapshot() == old(Snapshot())
    {
      var saved := Snapshot();
      var i := 0;
      err := None;
      while i < |ps| && err.None?
        invariant 0 <= i <= |ps|
        invariant err.None? ==> PlayersLoadedUpTo(saved, ps, i)
        invariant err.Some? ==> PlayerPass(saved, ps) == Err(err.value)
      {
        err := LoadPlayerAt(saved, ps, i);
        i := i + 1;
      }
      if err.Some? {
        Restore(saved);
      } else {
        PlayersLoaded(saved, ps);
      }
    }

    /** The game loop: one insert-or-ignore per record; the first error rolls
        the pass back. */
    method LoadGames(gs: seq<GameRecord>) returns (err: Option<LoadError>)
      modifies this
      ensures GamePass(old(teams), old(games), gs).Ok? ==>
        err.None? && Snapshot() == old(Snapshot()).(games := GamePass(old(teams), old(games), gs).value)
      ensures GamePass(old(teams), old(games), gs).Err? ==>
        err == Some(GamePass(old(teams), old(games), gs).error) && Snapshot() == old(Snapshot())
    {
      var saved := Snapshot();
      var i := 0;
      while i < |gs|
        invariant 0 <= i <= |gs|
        invariant GamePass(saved.teams, saved.games, gs) == GamePass(teams, games, gs[i..])
        invariant Snapshot() == saved.(games := games)
      {
        assert gs[i..][0] == gs[i] && gs[i..][1..] == gs[i + 1..];
        match InsertGame(teams, games, gs[i])
        case Err(e) =>
          Restore(saved);
          return Some(e);
        case Ok(g1) =>
          games := g1;
        i := i + 1;
      }
      assert gs[i..] == [];
      err := None;
    }

    /** `load_json_data`: teams, then players, then games, each pass
        committed when it completes; the first error ends the load. The
        schema's constraints hold afterwards whenever they held before. */
    method LoadAll(ts: seq<TeamRecord>, ps: seq<PlayerRecord>, gs: seq<GameRecord>) returns (err: Option<LoadError>)
      modifies this
      ensures LoadOutcome(Snapshot(), err) == Load(old(Snapshot()), ts, ps, gs)
      ensures old(Valid()) ==> Valid()
    {
      ghost var db := Snapshot();
      if db.Valid() {
        LoadKeepsValid(db, ts, ps, gs);
      }
      err := LoadTeams(ts);
      if err.Some? {
        return;
      }
      ghost var db1 := Snapshot();
      assert db1 == db.(teams := TeamPass(db.teams, ts).value);
      err := LoadPlayers(ps);
      if err.Some? {
        return;
      }
      ghost var db2 := Snapshot();
      assert db2 == PlayerPass(db1, ps).value;
      err := LoadGames(gs);
    }

    /** `get_player_summary`: look the player up, then for each category
        build its block and add its six metrics to the totals. */
    method Summary(pid: int) returns (r: Result<PlayerSummary, SummaryError>)
      ensures r == Summarize(Snapshot(), pid)
    {
      var found := FindPlayer(players, pid);
      if found.None? {
        return Err(PlayerNotFound);
      }
      var totals := Zero;
      var blocks: seq<CategorySummary> := [];
      for k := 0 to |Categories|
        invariant |blocks| == k
        invariant BlocksOf(shots, passes, turnovers, pid, blocks)
        invariant totals == Accumulated(blocks)
      {
        var block := CategoryBlock(shots, passes, turnovers, pid, Categories[k]);
        if block.Err? {
          SummaryOfFails(found.value.fullName, pid, shots, passes, turnovers, Categories[k]);
          return Err(NullPoints);
        }
        AccumulatedSnoc(blocks, block.value);
        BlocksOfSnoc(shots, passes, turnovers, pid, blocks, block.value);
        totals := totals.Add(block.value.metrics);
        blocks := blocks + [block.value];
      }
      AccumulatedFour(blocks);
      BlocksOfFour(shots, passes, turnovers, pid, blocks);
      SummaryOfAssembled(found.value.fullName, pid, shots, passes, turnovers, blocks);
      r := Ok(PlayerSummary(found.value.fullName, pid, totals, blocks[0], blocks[1], blocks[2], blocks[3]));
    }

    /** `GET /api/v1/teams`: every team row, in storage order; under the
        schema's constraints no team_id appears twice. */
    function AllTeams(): (r: seq<TeamRow>)
      reads this
      ensures |r| == |teams| && forall i :: 0 <= i < |r| ==> r[i] == teams[i]
      ensures Valid() ==> TeamKeysUnique(r)
    {
      teams
    }

    /** `GET /api/v1/players`: every player row, in storage order; under the
        schema's constraints no player_id appears twice and every team_id
        is listed by `AllTeams`. */
    function AllPlayers(): (r: seq<PlayerRow>)
      reads this
      ensures |r| == |players| && forall i :: 0 <= i < |r| ==> r[i] == players[i]
      ensures Valid() ==> PlayerKeysUnique(r)
      ensures Valid() ==> forall i :: 0 <= i < |r| ==> TeamRef(AllTeams(), r[i].teamId)
    {
      players
    }

    /** `GET /api/v1/games`: every game row, in storage order; under the
        schema's constraints no game_id appears twice and both team ids are
        listed by `AllTeams`. */
    function AllGames(): (r: seq<GameRow>)
      reads this
      ensures |r| == |games| && forall i :: 0 <= i < |r| ==> r[i] == games[i]
      ensures Valid() ==> GameKeysUnique(r)
      ensures Valid() ==> forall i :: 0 <= i < |r| ==>
        TeamRef(AllTeams(), r[i].homeTeamId) && TeamRef(AllTeams(), r[i].awayTeamId)
    {
      games
    }
  }
}
