/**
 * `get_player_summary`: for one player, the shots, passes and turnovers of
 * each of the four action types, their six counts and sums, the player-level
 * totals and the per-type action counts.
 */
module Aggregator {
  import opened Wrappers
  import opened Records
  import opened Schema

  /** The four action types the summary groups by. */
  datatype Category = PickAndRoll | Isolation | PostUp | OffBallScreen

  /** The order the summary visits them in. */
  const Categories: seq<Category> := [PickAndRoll, Isolation, PostUp, OffBallScreen]

  /** The action_type value stored for a category; also its key in the summary. */
  function ActionName(c: Category): string {
    match c
    case PickAndRoll => "pickAndRoll"
    case Isolation => "isolation"
    case PostUp => "postUp"
    case OffBallScreen => "offBallScreen"
  }

  /** The category an action_type value belongs to; None for NULL and for any
      other text. */
  function CategoryOf(actionType: Option<string>): (r: Option<Category>)
    ensures r.Some? ==> actionType == Some(ActionName(r.value))
    ensures r.None? ==> forall c :: actionType != Some(ActionName(c))
  {
    if actionType == Some("pickAndRoll") then Some(PickAndRoll)
    else if actionType == Some("isolation") then Some(Isolation)
    else if actionType == Some("postUp") then Some(PostUp)
    else if actionType == Some("offBallScreen") then Some(OffBallScreen)
    else None
  }

  /** An action type names a category exactly when it is that category's
      stored name; NULL and any other text name none. */
  lemma CategoryOfName(actionType: Option<string>, c: Category)
    ensures CategoryOf(actionType) == Some(c) <==> actionType == Some(ActionName(c))
  {
  }

  /** `WHERE player_id=%s AND action_type=%s`: SQL equality, which NULL never
      satisfies (see `CategoryOfName`). */
  predicate Selected(playerId: Option<int>, actionType: Option<string>, pid: int, c: Category) {
    playerId == Some(pid) && CategoryOf(actionType) == Some(c)
  }

  /** An event of the player that falls in one of the four categories. */
  predicate Recognized(playerId: Option<int>, actionType: Option<string>, pid: int) {
    playerId == Some(pid) && CategoryOf(actionType).Some?
  }

  /** A `[x, y]` location of the response. */
  datatype Point = Point(x: Option<Coord>, y: Option<Coord>)

  datatype ShotView = ShotView(loc: Point, points: Option<int>)

  datatype PassView = PassView(
    startLoc: Point, endLoc: Point,
    isCompleted: Option<bool>, isPotentialAssist: Option<bool>, isTurnover: Option<bool>)

  datatype TurnoverView = TurnoverView(loc: Point)

  function ShotViewOf(row: ShotRow): ShotView {
    ShotView(Point(row.locX, row.locY), row.points)
  }

  function PassViewOf(row: PassRow): PassView {
    PassView(Point(row.startLocX, row.startLocY), Point(row.endLocX, row.endLocY),
      row.isCompleted, row.isPotentialAssist, row.isTurnover)
  }

  function TurnoverViewOf(row: TurnoverRow): TurnoverView {
    TurnoverView(Point(row.locX, row.locY))
  }

  /** The shots of one player and category, in storage order. */
  function CategoryShots(rows: seq<ShotRow>, pid: int, c: Category): (r: seq<ShotView>)
    ensures |r| <= |rows|
  {
    if rows == [] then []
    else (if Selected(rows[0].playerId, rows[0].actionType, pid, c) then [ShotViewOf(rows[0])] else [])
         + CategoryShots(rows[1..], pid, c)
  }

  function CategoryPasses(rows: seq<PassRow>, pid: int, c: Category): (r: seq<PassView>)
    ensures |r| <= |rows|
  {
    if rows == [] then []
    else (if Selected(rows[0].playerId, rows[0].actionType, pid, c) then [PassViewOf(rows[0])] else [])
         + CategoryPasses(rows[1..], pid, c)
  }

  function CategoryTurnovers(rows: seq<TurnoverRow>, pid: int, c: Category): (r: seq<TurnoverView>)
    ensures |r| <= |rows|
  {
    if rows == [] then []
    else (if Selected(rows[0].playerId, rows[0].actionType, pid, c) then [TurnoverViewOf(rows[0])] else [])
         + CategoryTurnovers(rows[1..], pid, c)
  }

  /** Reference definitions: all the player's events of any of the four categories. */
  function RecognizedShots(rows: seq<ShotRow>, pid: int): seq<ShotView> {
    if rows == [] then []
    else (if Recognized(rows[0].playerId, rows[0].actionType, pid) then [ShotViewOf(rows[0])] else [])
         + RecognizedShots(rows[1..], pid)
  }

  function RecognizedPasses(rows: seq<PassRow>, pid: int): seq<PassView> {
    if rows == [] then []
    else (if Recognized(rows[0].playerId, rows[0].actionType, pid) then [PassViewOf(rows[0])] else [])
         + RecognizedPasses(rows[1..], pid)
  }

  function RecognizedTurnovers(rows: seq<TurnoverRow>, pid: int): seq<TurnoverView> {
    if rows == [] then []
    else (if Recognized(rows[0].playerId, rows[0].actionType, pid) then [TurnoverViewOf(rows[0])] else [])
         + RecognizedTurnovers(rows[1..], pid)
  }

  /** `sum(s["points"] for s in shots)`: None when a points value is null,
      because adding None raises. */
  function SumPoints(shots: seq<ShotView>): (r: Option<int>)
    ensures r.None? <==> exists k :: 0 <= k < |shots| && shots[k].points.None?
  {
    if shots == [] then Some(0)
    else
      var rest := SumPoints(shots[1..]);
      assert forall k :: 1 <= k < |shots| ==> shots[k] == shots[1..][k - 1];
      if shots[0].points.None? || rest.None? then None
      else Some(shots[0].points.value + rest.value)
  }

  /** `sum(1 for p in passes if p["isPotentialAssist"])`; NULL reads as false. */
  function PotentialAssists(passes: seq<PassView>): (n: nat)
    ensures n <= |passes|
  {
    if passes == [] then 0
    else (if passes[0].isPotentialAssist == Some(true) then 1 else 0) + PotentialAssists(passes[1..])
  }

  /** `sum(1 for p in passes if p["isTurnover"])`; NULL reads as false. */
  function PassingTurnovers(passes: seq<PassView>): (n: nat)
    ensures n <= |passes|
  {
    if passes == [] then 0
    else (if passes[0].isTurnover == Some(true) then 1 else 0) + PassingTurnovers(passes[1..])
  }

  /** The six numbers the summary reports per category and in total. */
  datatype Metrics = Metrics(
    shotAttempts: nat, points: int, passes: nat,
    potentialAssists: nat, turnovers: nat, passingTurnovers: nat)
  {
    function Add(m: Metrics): Metrics {
      Metrics(shotAttempts + m.shotAttempts, points + m.points, passes + m.passes,
        potentialAssists + m.potentialAssists, turnovers + m.turnovers,
        passingTurnovers + m.passingTurnovers)
    }

    /** `<category>Count`: shots, passes and turnover-table rows; a passing
        turnover is already one of the passes and is not added again. */
    function ActionCount(): nat {
      shotAttempts + passes + turnovers
    }
  }

  const Zero: Metrics := Metrics(0, 0, 0, 0, 0, 0)

  /** The metrics of a set of events, or None when a shot's points are null. */
  function MetricsOf(shots: seq<ShotView>, passes: seq<PassView>, turnovers: seq<TurnoverView>): (r: Option<Metrics>)
    ensures r.None? <==> exists k :: 0 <= k < |shots| && shots[k].points.None?
    ensures r.Some? ==> && r.value.shotAttempts == |shots| && r.value.passes == |passes|
                        && r.value.turnovers == |turnovers|
                        && r.value.potentialAssists <= r.value.passes
                        && r.value.passingTurnovers <= r.value.passes
  {
    match SumPoints(shots)
    case None => None
    case Some(points) =>
      Some(Metrics(|shots|, points, |passes|, PotentialAssists(passes), |turnovers|, PassingTurnovers(passes)))
  }

  /** One category's block of the summary. */
  datatype CategorySummary = CategorySummary(
    metrics: Metrics,
    shots: seq<ShotView>, passes: seq<PassView>, turnovers: seq<TurnoverView>)

  /** Why a summary is not produced: no such player (the 404), or a shot of
      the player with null points (the `sum` raises). */
  datatype SummaryError = PlayerNotFound | NullPoints

  /** One category's block, computed from the three event tables. */
  function CategoryBlock(shotRows: seq<ShotRow>, passRows: seq<PassRow>, turnoverRows: seq<TurnoverRow>,
                         pid: int, c: Category): (r: Result<CategorySummary, SummaryError>)
    ensures r.Ok? ==> r.value.metrics.potentialAssists <= r.value.metrics.passes
    ensures r.Ok? ==> r.value.metrics.passingTurnovers <= r.value.metrics.passes
  {
    var shots := CategoryShots(shotRows, pid, c);
    var passes := CategoryPasses(passRows, pid, c);
    var turnovers := CategoryTurnovers(turnoverRows, pid, c);
    match MetricsOf(shots, passes, turnovers)
    case None => Err(NullPoints)
    case Some(m) => Ok(CategorySummary(m, shots, passes, turnovers))
  }

  /** The response of a found player: its name and id, the totals, and one
      block per category (the `<category>` key; `<category>Count` is the
      block's action count). */
  datatype PlayerSummary = PlayerSummary(
    name: string,
    playerId: int,
    totals: Metrics,
    pickAndRoll: CategorySummary,
    isolation: CategorySummary,
    postUp: CategorySummary,
    offBallScreen: CategorySummary)
  {
    function Block(c: Category): CategorySummary {
      match c
      case PickAndRoll => pickAndRoll
      case Isolation => isolation
      case PostUp => postUp
      case OffBallScreen => offBallScreen
    }

    function Count(c: Category): nat {
      Block(c).metrics.ActionCount()
    }
  }

  /** `SELECT ... FROM player WHERE player_id=%s` and `fetchone()`. */
  function FindPlayer(players: seq<PlayerRow>, pid: int): (r: Option<PlayerRow>)
    ensures r.None? <==> !HasPlayer(players, pid)
    ensures r.Some? ==> r.value in players && r.value.playerId == Some(pid)
  {
    if players == [] then None
    else if players[0].playerId == Some(pid) then Some(players[0])
    else
      var r := FindPlayer(players[1..], pid);
      assert forall k :: 1 <= k < |players| ==> players[k] == players[1..][k - 1];
      r
  }

  /** The response for a found player with the given name: the four blocks
      and their sum as the player totals, or NullPoints. */
  function SummaryOf(name: string, pid: int,
                     shotRows: seq<ShotRow>, passRows: seq<PassRow>, turnoverRows: seq<TurnoverRow>)
    : (r: Result<PlayerSummary, SummaryError>)
    ensures r.Err? ==> r.error == NullPoints
    ensures r.Ok? ==> r.value.name == name && r.value.playerId == pid
  {
    var pr, iso, pu, obs :=
      CategoryBlock(shotRows, passRows, turnoverRows, pid, PickAndRoll),
      CategoryBlock(shotRows, passRows, turnoverRows, pid, Isolation),
      CategoryBlock(shotRows, passRows, turnoverRows, pid, PostUp),
      CategoryBlock(shotRows, passRows, turnoverRows, pid, OffBallScreen);
    if pr.Err? || iso.Err? || pu.Err? || obs.Err? then Err(NullPoints)
    else Ok(PlayerSummary(name, pid,
              Zero.Add(pr.value.metrics).Add(iso.value.metrics).Add(pu.value.metrics).Add(obs.value.metrics),
              pr.value, iso.value, pu.value, obs.value))
  }

  /** `get_player_summary`: NotFound for an unknown player, otherwise the
      summary of the stored events under the player's full name. */
  function Summarize(db: Tables, pid: int): (r: Result<PlayerSummary, SummaryError>)
    ensures r == Err(PlayerNotFound) <==> !HasPlayer(db.players, pid)
    ensures r.Ok? ==> && r.value.playerId == pid
                      && exists row :: row in db.players && row.playerId == Some(pid) && row.fullName == r.value.name
  {
    match FindPlayer(db.players, pid)
    case None => Err(PlayerNotFound)
    case Some(row) => SummaryOf(row.fullName, pid, db.shots, db.passes, db.turnovers)
  }

  // ------------------------------------------------------------ properties

  lemma SumPointsCons(v: ShotView, rest: seq<ShotView>)
    ensures SumPoints([v] + rest).Some? <==> v.points.Some? && SumPoints(rest).Some?
    ensures SumPoints([v] + rest).Some? ==> SumPoints([v] + rest).value == v.points.value + SumPoints(rest).value
  {
    assert ([v] + rest)[1..] == rest;
  }

  /** One shot row's effect on the four category lists and on the
      recognized list: it joins the list of its own category, if any. */
  lemma ShotsStep(rows: seq<ShotRow>, pid: int)
    requires rows != []
    ensures var r, tail := rows[0], rows[1..];
      && (!Recognized(r.playerId, r.actionType, pid) ==>
            && RecognizedShots(rows, pid) == RecognizedShots(tail, pid)
            && forall c :: CategoryShots(rows, pid, c) == CategoryShots(tail, pid, c))
      && (Recognized(r.playerId, r.actionType, pid) ==>
            && RecognizedShots(rows, pid) == [ShotViewOf(r)] + RecognizedShots(tail, pid)
            && forall c :: CategoryShots(rows, pid, c) ==
                 if CategoryOf(r.actionType) == Some(c) then [ShotViewOf(r)] + CategoryShots(tail, pid, c)
                 else CategoryShots(tail, pid, c))
  {
  }

  /** The four category lists of shots split the player's recognized shots. */
  lemma {:induction false} ShotCountsPartition(rows: seq<ShotRow>, pid: int)
    ensures |RecognizedShots(rows, pid)| ==
      |CategoryShots(rows, pid, PickAndRoll)| + |CategoryShots(rows, pid, Isolation)|
      + |CategoryShots(rows, pid, PostUp)| + |CategoryShots(rows, pid, OffBallScreen)|
  {
    if rows != [] {
      ShotCountsPartition(rows[1..], pid);
      ShotsStep(rows, pid);
    }
  }

  /** The points of one category's shots, one row at a time. */
  lemma ShotPointsStep(rows: seq<ShotRow>, pid: int, c: Category)
    requires rows != []
    ensures var r, rest, now := rows[0], SumPoints(CategoryShots(rows[1..], pid, c)), SumPoints(CategoryShots(rows, pid, c));
      if Selected(r.playerId, r.actionType, pid, c)
      then (now.Some? <==> r.points.Some? && rest.Some?) && (now.Some? ==> now.value == r.points.value + rest.value)
      else now == rest
  {
    var r := rows[0];
    if Selected(r.playerId, r.actionType, pid, c) {
      assert CategoryShots(rows, pid, c) == [ShotViewOf(r)] + CategoryShots(rows[1..], pid, c);
      SumPointsCons(ShotViewOf(r), CategoryShots(rows[1..], pid, c));
    } else {
      assert CategoryShots(rows, pid, c) == CategoryShots(rows[1..], pid, c);
    }
  }

  /** The points of all recognized shots, one row at a time. */
  lemma RecognizedPointsStep(rows: seq<ShotRow>, pid: int)
    requires rows != []
    ensures var r, rest, now := rows[0], SumPoints(RecognizedShots(rows[1..], pid)), SumPoints(RecognizedShots(rows, pid));
      if Recognized(r.playerId, r.actionType, pid)
      then (now.Some? <==> r.points.Some? && rest.Some?) && (now.Some? ==> now.value == r.points.value + rest.value)
      else now == rest
  {
    var r := rows[0];
    if Recognized(r.playerId, r.actionType, pid) {
      assert RecognizedShots(rows, pid) == [ShotViewOf(r)] + RecognizedShots(rows[1..], pid);
      SumPointsCons(ShotViewOf(r), RecognizedShots(rows[1..], pid));
    } else {
      assert RecognizedShots(rows, pid) == RecognizedShots(rows[1..], pid);
    }
  }

  /** Their points add up to the recognized shots' points, and a null value
      in any of them makes the whole sum fail. */
  lemma {:induction false} ShotPointsPartition(rows: seq<ShotRow>, pid: int)
    ensures var pr, iso, pu, obs := SumPoints(CategoryShots(rows, pid, PickAndRoll)), SumPoints(CategoryShots(rows, pid, Isolation)),
                                    SumPoints(CategoryShots(rows, pid, PostUp)), SumPoints(CategoryShots(rows, pid, OffBallScreen));
      var all := SumPoints(RecognizedShots(rows, pid));
      && (all.Some? <==> pr.Some? && iso.Some? && pu.Some? && obs.Some?)
      && (all.Some? ==> all.value == pr.value + iso.value + pu.value + obs.value)
  {
    if rows != [] {
      ShotPointsPartition(rows[1..], pid);
      RecognizedPointsStep(rows, pid);
      ShotPointsStep(rows, pid, PickAndRoll);
      ShotPointsStep(rows, pid, Isolation);
      ShotPointsStep(rows, pid, PostUp);
      ShotPointsStep(rows, pid, OffBallScreen);
    }
  }

  lemma PotentialAssistsCons(v: PassView, rest: seq<PassView>)
    ensures PotentialAssists([v] + rest) == (if v.isPotentialAssist == Some(true) then 1 else 0) + PotentialAssists(rest)
  {
    assert ([v] + rest)[1..] == rest;
  }

  lemma PassingTurnoversCons(v: PassView, rest: seq<PassView>)
    ensures PassingTurnovers([v] + rest) == (if v.isTurnover == Some(true) then 1 else 0) + PassingTurnovers(rest)
  {
    assert ([v] + rest)[1..] == rest;
  }

  lemma PassesStep(rows: seq<PassRow>, pid: int)
    requires rows != []
    ensures var r, tail := rows[0], rows[1..];
      && (!Recognized(r.playerId, r.actionType, pid) ==>
            && RecognizedPasses(rows, pid) == RecognizedPasses(tail, pid)
            && forall c :: CategoryPasses(rows, pid, c) == CategoryPasses(tail, pid, c))
      && (Recognized(r.playerId, r.actionType, pid) ==>
            && RecognizedPasses(rows, pid) == [PassViewOf(r)] + RecognizedPasses(tail, pid)
            && forall c :: CategoryPasses(rows, pid, c) ==
                 if CategoryOf(r.actionType) == Some(c) then [PassViewOf(r)] + CategoryPasses(tail, pid, c)
                 else CategoryPasses(tail, pid, c))
  {
  }

  /** The four category lists of passes split the player's recognized passes. */
  lemma {:induction false} PassCountsPartition(rows: seq<PassRow>, pid: int)
    ensures |RecognizedPasses(rows, pid)| ==
      |CategoryPasses(rows, pid, PickAndRoll)| + |CategoryPasses(rows, pid, Isolation)|
      + |CategoryPasses(rows, pid, PostUp)| + |CategoryPasses(rows, pid, OffBallScreen)|
  {
    if rows != [] {
      PassCountsPartition(rows[1..], pid);
      PassesStep(rows, pid);
    }
  }

  /** The flag count of one category's passes, one row at a time. */
  lemma PassFlagsStep(rows: seq<PassRow>, pid: int, c: Category)
    requires rows != []
    ensures var r, rest := rows[0], CategoryPasses(rows[1..], pid, c);
      var mine := Selected(r.playerId, r.actionType, pid, c);
      && PotentialAssists(CategoryPasses(rows, pid, c)) ==
           (if mine && r.isPotentialAssist == Some(true) then 1 else 0) + PotentialAssists(rest)
      && PassingTurnovers(CategoryPasses(rows, pid, c)) ==
           (if mine && r.isTurnover == Some(true) then 1 else 0) + PassingTurnovers(rest)
  {
    var r := rows[0];
    if Selected(r.playerId, r.actionType, pid, c) {
      assert CategoryPasses(rows, pid, c) == [PassViewOf(r)] + CategoryPasses(rows[1..], pid, c);
      PotentialAssistsCons(PassViewOf(r), CategoryPasses(rows[1..], pid, c));
      PassingTurnoversCons(PassViewOf(r), CategoryPasses(rows[1..], pid, c));
    } else {
      assert CategoryPasses(rows, pid, c) == CategoryPasses(rows[1..], pid, c);
    }
  }

  /** The flag count of all recognized passes, one row at a time. */
  lemma RecognizedFlagsStep(rows: seq<PassRow>, pid: int)
    requires rows != []
    ensures var r, rest := rows[0], RecognizedPasses(rows[1..], pid);
      var mine := Recognized(r.playerId, r.actionType, pid);
      && PotentialAssists(RecognizedPasses(rows, pid)) ==
           (if mine && r.isPotentialAssist == Some(true) then 1 else 0) + PotentialAssists(rest)
      && PassingTurnovers(RecognizedPasses(rows, pid)) ==
           (if mine && r.isTurnover == Some(true) then 1 else 0) + PassingTurnovers(rest)
  {
    var r := rows[0];
    if Recognized(r.playerId, r.actionType, pid) {
      assert RecognizedPasses(rows, pid) == [PassViewOf(r)] + RecognizedPasses(rows[1..], pid);
      PotentialAssistsCons(PassViewOf(r), RecognizedPasses(rows[1..], pid));
      PassingTurnoversCons(PassViewOf(r), RecognizedPasses(rows[1..], pid));
    } else {
      assert RecognizedPasses(rows, pid) == RecognizedPasses(rows[1..], pid);
    }
  }

  /** The potential-assist and passing-turnover counts of the four categories
      add up to those of the recognized passes. */
  lemma {:induction false} PassFlagsPartition(rows: seq<PassRow>, pid: int)
    ensures PotentialAssists(RecognizedPasses(rows, pid)) ==
      PotentialAssists(CategoryPasses(rows, pid, PickAndRoll)) + PotentialAssists(CategoryPasses(rows, pid, Isolation))
      + PotentialAssists(CategoryPasses(rows, pid, PostUp)) + PotentialAssists(CategoryPasses(rows, pid, OffBallScreen))
    ensures PassingTurnovers(RecognizedPasses(rows, pid)) ==
      PassingTurnovers(CategoryPasses(rows, pid, PickAndRoll)) + PassingTurnovers(CategoryPasses(rows, pid, Isolation))
      + PassingTurnovers(CategoryPasses(rows, pid, PostUp)) + PassingTurnovers(CategoryPasses(rows, pid, OffBallScreen))
  {
    if rows != [] {
      PassFlagsPartition(rows[1..], pid);
      RecognizedFlagsStep(rows, pid);
      PassFlagsStep(rows, pid, PickAndRoll);
      PassFlagsStep(rows, pid, Isolation);
      PassFlagsStep(rows, pid, PostUp);
      PassFlagsStep(rows, pid, OffBallScreen);
    }
  }

  /** The four category lists of turnovers split the player's recognized turnovers. */
  lemma {:induction false} TurnoverCountsPartition(rows: seq<TurnoverRow>, pid: int)
    ensures |RecognizedTurnovers(rows, pid)| ==
      |CategoryTurnovers(rows, pid, PickAndRoll)| + |CategoryTurnovers(rows, pid, Isolation)|
      + |CategoryTurnovers(rows, pid, PostUp)| + |CategoryTurnovers(rows, pid, OffBallScreen)|
  {
    if rows != [] {
      TurnoverCountsPartition(rows[1..], pid);
    }
  }

  /** The player totals are exactly the metrics of the player's events of the
      four recognized action types, taken together; events with any other
      or a NULL action type count nowhere. The summary fails exactly when
      one of those shots has null points. */
  lemma SummaryOfTotals(name: string, pid: int,
                        shotRows: seq<ShotRow>, passRows: seq<PassRow>, turnoverRows: seq<TurnoverRow>)
    ensures var r := SummaryOf(name, pid, shotRows, passRows, turnoverRows);
      var m := MetricsOf(RecognizedShots(shotRows, pid), RecognizedPasses(passRows, pid),
                         RecognizedTurnovers(turnoverRows, pid));
      && (r.Ok? <==> m.Some?)
      && (r.Ok? ==> r.value.totals == m.value)
  {
    if SumPoints(RecognizedShots(shotRows, pid)).None? {
      NullPointsFail(name, pid, shotRows, passRows, turnoverRows);
    } else {
      TotalsOfRecognized(name, pid, shotRows, passRows, turnoverRows);
    }
  }

  /** A null points value among the recognized shots makes the summary fail. */
  lemma NullPointsFail(name: string, pid: int,
                       shotRows: seq<ShotRow>, passRows: seq<PassRow>, turnoverRows: seq<TurnoverRow>)
    requires SumPoints(RecognizedShots(shotRows, pid)).None?
    ensures SummaryOf(name, pid, shotRows, passRows, turnoverRows) == Err(NullPoints)
  {
    ShotPointsPartition(shotRows, pid);
    if SumPoints(CategoryShots(shotRows, pid, PickAndRoll)).None? {
      SummaryOfFails(name, pid, shotRows, passRows, turnoverRows, PickAndRoll);
    } else if SumPoints(CategoryShots(shotRows, pid, Isolation)).None? {
      SummaryOfFails(name, pid, shotRows, passRows, turnoverRows, Isolation);
    } else if SumPoints(CategoryShots(shotRows, pid, PostUp)).None? {
      SummaryOfFails(name, pid, shotRows, passRows, turnoverRows, PostUp);
    } else {
      SummaryOfFails(name, pid, shotRows, passRows, turnoverRows, OffBallScreen);
    }
  }

  /** When the recognized shots all have points, the summary succeeds and its
      totals are the metrics of the recognized events. */
  lemma TotalsOfRecognized(name: string, pid: int,
                           shotRows: seq<ShotRow>, passRows: seq<PassRow>, turnoverRows: seq<TurnoverRow>)
    requires SumPoints(RecognizedShots(shotRows, pid)).Some?
    ensures var shots, passes, turnovers :=
      RecognizedShots(shotRows, pid), RecognizedPasses(passRows, pid), RecognizedTurnovers(turnoverRows, pid);
      && SummaryOf(name, pid, shotRows, passRows, turnoverRows).Ok?
      && SummaryOf(name, pid, shotRows, passRows, turnoverRows).value.totals ==
         Metrics(|shots|, SumPoints(shots).value, |passes|, PotentialAssists(passes), |turnovers|, PassingTurnovers(passes))
  {
    ShotPointsPartition(shotRows, pid);
    var b0 := BlockOfCategory(shotRows, passRows, turnoverRows, pid, PickAndRoll);
    var b1 := BlockOfCategory(shotRows, passRows, turnoverRows, pid, Isolation);
    var b2 := BlockOfCategory(shotRows, passRows, turnoverRows, pid, PostUp);
    var b3 := BlockOfCategory(shotRows, passRows, turnoverRows, pid, OffBallScreen);
    assert SummaryOf(name, pid, shotRows, passRows, turnoverRows) ==
      Ok(PlayerSummary(name, pid, Zero.Add(b0.metrics).Add(b1.metrics).Add(b2.metrics).Add(b3.metrics), b0, b1, b2, b3));
    var t := Zero.Add(b0.metrics).Add(b1.metrics).Add(b2.metrics).Add(b3.metrics);
    assert t.shotAttempts == |RecognizedShots(shotRows, pid)| by { ShotCountsPartition(shotRows, pid); }
    assert t.passes == |RecognizedPasses(passRows, pid)| by { PassCountsPartition(passRows, pid); }
    assert t.potentialAssists == PotentialAssists(RecognizedPasses(passRows, pid))
        && t.passingTurnovers == PassingTurnovers(RecognizedPasses(passRows, pid)) by { PassFlagsPartition(passRows, pid); }
    assert t.turnovers == |RecognizedTurnovers(turnoverRows, pid)| by { TurnoverCountsPartition(turnoverRows, pid); }
  }

  /** The block of a category whose shots all have points, metric by metric. */
  lemma BlockOfCategory(shotRows: seq<ShotRow>, passRows: seq<PassRow>, turnoverRows: seq<TurnoverRow>,
                        pid: int, c: Category) returns (b: CategorySummary)
    requires SumPoints(CategoryShots(shotRows, pid, c)).Some?
    ensures var shots, passes := CategoryShots(shotRows, pid, c), CategoryPasses(passRows, pid, c);
      && CategoryBlock(shotRows, passRows, turnoverRows, pid, c) == Ok(b)
      && b.metrics == Metrics(|shots|, SumPoints(shots).value, |passes|, PotentialAssists(passes),
                              |CategoryTurnovers(turnoverRows, pid, c)|, PassingTurnovers(passes))
  {
    b := CategoryBlock(shotRows, passRows, turnoverRows, pid, c).value;
  }

  /** The same for the stored tables: a known player's summary succeeds
      exactly when the recognized events have no null points, and its totals
      are their metrics. */
  lemma SummaryTotals(db: Tables, pid: int)
    requires HasPlayer(db.players, pid)
    ensures var m := MetricsOf(RecognizedShots(db.shots, pid), RecognizedPasses(db.passes, pid),
                               RecognizedTurnovers(db.turnovers, pid));
      && (Summarize(db, pid).Ok? <==> m.Some?)
      && (Summarize(db, pid).Ok? ==> Summarize(db, pid).value.totals == m.value)
  {
    SummaryOfTotals(FindPlayer(db.players, pid).value.fullName, pid, db.shots, db.passes, db.turnovers);
  }

  // Appending rows: the lists are taken in storage order, so new rows land
  // at the end of their category's list.

  lemma {:induction false} CategoryShotsAppend(a: seq<ShotRow>, b: seq<ShotRow>, pid: int, c: Category)
    ensures CategoryShots(a + b, pid, c) == CategoryShots(a, pid, c) + CategoryShots(b, pid, c)
  {
    if a == [] {
      assert a + b == b;
    } else {
      assert (a + b)[0] == a[0] && (a + b)[1..] == a[1..] + b;
      CategoryShotsAppend(a[1..], b, pid, c);
      var head := if Selected(a[0].playerId, a[0].actionType, pid, c) then [ShotViewOf(a[0])] else [];
      assert CategoryShots(a + b, pid, c) == head + CategoryShots(a[1..] + b, pid, c);
      assert CategoryShots(a, pid, c) == head + CategoryShots(a[1..], pid, c);
    }
  }

  lemma {:induction false} CategoryPassesAppend(a: seq<PassRow>, b: seq<PassRow>, pid: int, c: Category)
    ensures CategoryPasses(a + b, pid, c) == CategoryPasses(a, pid, c) + CategoryPasses(b, pid, c)
  {
    if a == [] {
      assert a + b == b;
    } else {
      assert (a + b)[0] == a[0] && (a + b)[1..] == a[1..] + b;
      CategoryPassesAppend(a[1..], b, pid, c);
      var head := if Selected(a[0].playerId, a[0].actionType, pid, c) then [PassViewOf(a[0])] else [];
      assert CategoryPasses(a + b, pid, c) == head + CategoryPasses(a[1..] + b, pid, c);
      assert CategoryPasses(a, pid, c) == head + CategoryPasses(a[1..], pid, c);
    }
  }

  lemma {:induction false} CategoryTurnoversAppend(a: seq<TurnoverRow>, b: seq<TurnoverRow>, pid: int, c: Category)
    ensures CategoryTurnovers(a + b, pid, c) == CategoryTurnovers(a, pid, c) + CategoryTurnovers(b, pid, c)
  {
    if a == [] {
      assert a + b == b;
    } else {
      assert (a + b)[0] == a[0] && (a + b)[1..] == a[1..] + b;
      CategoryTurnoversAppend(a[1..], b, pid, c);
      var head := if Selected(a[0].playerId, a[0].actionType, pid, c) then [TurnoverViewOf(a[0])] else [];
      assert CategoryTurnovers(a + b, pid, c) == head + CategoryTurnovers(a[1..] + b, pid, c);
      assert CategoryTurnovers(a, pid, c) == head + CategoryTurnovers(a[1..], pid, c);
    }
  }

  /** Rows that are not the player's, or whose action type is none of the
      four, appear in no category list. */
  lemma {:induction false} ForeignShots(rows: seq<ShotRow>, pid: int, c: Category)
    requires forall k :: 0 <= k < |rows| ==> !Recognized(rows[k].playerId, rows[k].actionType, pid)
    ensures CategoryShots(rows, pid, c) == []
  {
    if rows != [] {
      assert !Recognized(rows[0].playerId, rows[0].actionType, pid);
      ForeignShots(rows[1..], pid, c);
    }
  }

  lemma {:induction false} ForeignPasses(rows: seq<PassRow>, pid: int, c: Category)
    requires forall k :: 0 <= k < |rows| ==> !Recognized(rows[k].playerId, rows[k].actionType, pid)
    ensures CategoryPasses(rows, pid, c) == []
  {
    if rows != [] {
      assert !Recognized(rows[0].playerId, rows[0].actionType, pid);
      ForeignPasses(rows[1..], pid, c);
    }
  }

  lemma {:induction false} ForeignTurnovers(rows: seq<TurnoverRow>, pid: int, c: Category)
    requires forall k :: 0 <= k < |rows| ==> !Recognized(rows[k].playerId, rows[k].actionType, pid)
    ensures CategoryTurnovers(rows, pid, c) == []
  {
    if rows != [] {
      assert !Recognized(rows[0].playerId, rows[0].actionType, pid);
      ForeignTurnovers(rows[1..], pid, c);
    }
  }

  lemma AppendEmpty<T>(s: seq<T>)
    ensures s + [] == s && [] + s == s
  {
  }

  /** Every category block is the same after appending rows that are other
      players' or of another action type. */
  lemma ForeignEventsBlock(pid: int, c: Category,
                           shotRows: seq<ShotRow>, passRows: seq<PassRow>, turnoverRows: seq<TurnoverRow>,
                           xs: seq<ShotRow>, ys: seq<PassRow>, zs: seq<TurnoverRow>)
    requires forall k :: 0 <= k < |xs| ==> !Recognized(xs[k].playerId, xs[k].actionType, pid)
    requires forall k :: 0 <= k < |ys| ==> !Recognized(ys[k].playerId, ys[k].actionType, pid)
    requires forall k :: 0 <= k < |zs| ==> !Recognized(zs[k].playerId, zs[k].actionType, pid)
    ensures CategoryBlock(shotRows + xs, passRows + ys, turnoverRows + zs, pid, c)
         == CategoryBlock(shotRows, passRows, turnoverRows, pid, c)
  {
    CategoryShotsAppend(shotRows, xs, pid, c);
    ForeignShots(xs, pid, c);
    AppendEmpty(CategoryShots(shotRows, pid, c));
    CategoryPassesAppend(passRows, ys, pid, c);
    ForeignPasses(ys, pid, c);
    AppendEmpty(CategoryPasses(passRows, pid, c));
    CategoryTurnoversAppend(turnoverRows, zs, pid, c);
    ForeignTurnovers(zs, pid, c);
    AppendEmpty(CategoryTurnovers(turnoverRows, pid, c));
  }

  /** The summary of a player does not change when events of other players,
      or events of the player with another or a NULL action type, are added. */
  lemma ForeignEventsIgnored(db: Tables, pid: int, xs: seq<ShotRow>, ys: seq<PassRow>, zs: seq<TurnoverRow>)
    requires forall k :: 0 <= k < |xs| ==> !Recognized(xs[k].playerId, xs[k].actionType, pid)
    requires forall k :: 0 <= k < |ys| ==> !Recognized(ys[k].playerId, ys[k].actionType, pid)
    requires forall k :: 0 <= k < |zs| ==> !Recognized(zs[k].playerId, zs[k].actionType, pid)
    ensures Summarize(db.(shots := db.shots + xs, passes := db.passes + ys, turnovers := db.turnovers + zs), pid)
         == Summarize(db, pid)
  {
    var db' := db.(shots := db.shots + xs, passes := db.passes + ys, turnovers := db.turnovers + zs);
    assert db'.players == db.players;
    match FindPlayer(db.players, pid)
    case None =>
    case Some(row) =>
      ForeignEventsSummary(row.fullName, pid, db.shots, db.passes, db.turnovers, xs, ys, zs);
  }

  /** The same for the summary of a known player. */
  lemma ForeignEventsSummary(name: string, pid: int,
                             shotRows: seq<ShotRow>, passRows: seq<PassRow>, turnoverRows: seq<TurnoverRow>,
                             xs: seq<ShotRow>, ys: seq<PassRow>, zs: seq<TurnoverRow>)
    requires forall k :: 0 <= k < |xs| ==> !Recognized(xs[k].playerId, xs[k].actionType, pid)
    requires forall k :: 0 <= k < |ys| ==> !Recognized(ys[k].playerId, ys[k].actionType, pid)
    requires forall k :: 0 <= k < |zs| ==> !Recognized(zs[k].playerId, zs[k].actionType, pid)
    ensures SummaryOf(name, pid, shotRows + xs, passRows + ys, turnoverRows + zs)
         == SummaryOf(name, pid, shotRows, passRows, turnoverRows)
  {
    ForeignEventsBlock(pid, PickAndRoll, shotRows, passRows, turnoverRows, xs, ys, zs);
    ForeignEventsBlock(pid, Isolation, shotRows, passRows, turnoverRows, xs, ys, zs);
    ForeignEventsBlock(pid, PostUp, shotRows, passRows, turnoverRows, xs, ys, zs);
    ForeignEventsBlock(pid, OffBallScreen, shotRows, passRows, turnoverRows, xs, ys, zs);
  }

  /** A summary is assembled from the four blocks, taken in category order,
      with their metrics added up into the totals. */
  lemma SummaryOfAssembled(name: string, pid: int,
                           shotRows: seq<ShotRow>, passRows: seq<PassRow>, turnoverRows: seq<TurnoverRow>,
                           blocks: seq<CategorySummary>)
    requires |blocks| == |Categories|
    requires forall j :: 0 <= j < |Categories| ==>
      CategoryBlock(shotRows, passRows, turnoverRows, pid, Categories[j]) == Ok(blocks[j])
    ensures SummaryOf(name, pid, shotRows, passRows, turnoverRows) ==
      Ok(PlayerSummary(name, pid,
           Zero.Add(blocks[0].metrics).Add(blocks[1].metrics).Add(blocks[2].metrics).Add(blocks[3].metrics),
           blocks[0], blocks[1], blocks[2], blocks[3]))
  {
    assert Categories[0] == PickAndRoll && Categories[1] == Isolation;
    assert Categories[2] == PostUp && Categories[3] == OffBallScreen;
  }

  /** A block that fails makes the whole summary fail. */
  lemma SummaryOfFails(name: string, pid: int,
                       shotRows: seq<ShotRow>, passRows: seq<PassRow>, turnoverRows: seq<TurnoverRow>, c: Category)
    requires CategoryBlock(shotRows, passRows, turnoverRows, pid, c).Err?
    ensures SummaryOf(name, pid, shotRows, passRows, turnoverRows) == Err(NullPoints)
  {
  }

  /** Each block of a summary is the block of its category, and the summary
      fails exactly when one of the four blocks does. */
  lemma SummaryOfBlocks(name: string, pid: int,
                        shotRows: seq<ShotRow>, passRows: seq<PassRow>, turnoverRows: seq<TurnoverRow>)
    ensures var r := SummaryOf(name, pid, shotRows, passRows, turnoverRows);
      && (r.Ok? <==> forall c :: CategoryBlock(shotRows, passRows, turnoverRows, pid, c).Ok?)
      && (r.Ok? ==> forall c :: CategoryBlock(shotRows, passRows, turnoverRows, pid, c) == Ok(r.value.Block(c)))
  {
    var r := SummaryOf(name, pid, shotRows, passRows, turnoverRows);
    forall c: Category
      ensures r.Ok? ==> CategoryBlock(shotRows, passRows, turnoverRows, pid, c) == Ok(r.value.Block(c))
      ensures !CategoryBlock(shotRows, passRows, turnoverRows, pid, c).Ok? ==> r.Err?
    {
      match c
      case PickAndRoll =>
      case Isolation =>
      case PostUp =>
      case OffBallScreen =>
    }
  }


  /** Without events of the player in the four categories, every block is empty. */
  lemma ForeignBlocksEmpty(shotRows: seq<ShotRow>, passRows: seq<PassRow>, turnoverRows: seq<TurnoverRow>, pid: int)
    requires forall k :: 0 <= k < |shotRows| ==> !Recognized(shotRows[k].playerId, shotRows[k].actionType, pid)
    requires forall k :: 0 <= k < |passRows| ==> !Recognized(passRows[k].playerId, passRows[k].actionType, pid)
    requires forall k :: 0 <= k < |turnoverRows| ==> !Recognized(turnoverRows[k].playerId, turnoverRows[k].actionType, pid)
    ensures forall c :: CategoryBlock(shotRows, passRows, turnoverRows, pid, c) == Ok(CategorySummary(Zero, [], [], []))
  {
    forall c
      ensures CategoryBlock(shotRows, passRows, turnoverRows, pid, c) == Ok(CategorySummary(Zero, [], [], []))
    {
      ForeignShots(shotRows, pid, c);
      ForeignPasses(passRows, pid, c);
      ForeignTurnovers(turnoverRows, pid, c);
    }
  }

  /** The same on the event tables: no recognized event gives an all-zero summary. */
  lemma ForeignSummaryZero(name: string, pid: int,
                           shotRows: seq<ShotRow>, passRows: seq<PassRow>, turnoverRows: seq<TurnoverRow>)
    requires forall k :: 0 <= k < |shotRows| ==> !Recognized(shotRows[k].playerId, shotRows[k].actionType, pid)
    requires forall k :: 0 <= k < |passRows| ==> !Recognized(passRows[k].playerId, passRows[k].actionType, pid)
    requires forall k :: 0 <= k < |turnoverRows| ==> !Recognized(turnoverRows[k].playerId, turnoverRows[k].actionType, pid)
    ensures SummaryOf(name, pid, shotRows, passRows, turnoverRows).Ok?
    ensures SummaryOf(name, pid, shotRows, passRows, turnoverRows).value.totals == Zero
  {
    SummaryOfTotals(name, pid, shotRows, passRows, turnoverRows);
    ShotCountsPartition(shotRows, pid);
    PassCountsPartition(passRows, pid);
    TurnoverCountsPartition(turnoverRows, pid);
    ForeignBlocksEmpty(shotRows, passRows, turnoverRows, pid);
  }

  /** A known player without events of the four action types gets all-zero
      totals and counts and four empty blocks. */
  lemma NoEventsAllZero(db: Tables, pid: int)
    requires HasPlayer(db.players, pid)
    requires forall k :: 0 <= k < |db.shots| ==> !Recognized(db.shots[k].playerId, db.shots[k].actionType, pid)
    requires forall k :: 0 <= k < |db.passes| ==> !Recognized(db.passes[k].playerId, db.passes[k].actionType, pid)
    requires forall k :: 0 <= k < |db.turnovers| ==> !Recognized(db.turnovers[k].playerId, db.turnovers[k].actionType, pid)
    ensures Summarize(db, pid).Ok?
    ensures var s := Summarize(db, pid).value;
      && s.totals == Zero
      && (forall c :: s.Block(c) == CategorySummary(Zero, [], [], []))
      && (forall c :: s.Count(c) == 0)
  {
    var name := FindPlayer(db.players, pid).value.fullName;
    ForeignSummaryZero(name, pid, db.shots, db.passes, db.turnovers);
    ForeignBlocksEmpty(db.shots, db.passes, db.turnovers, pid);
    SummaryOfBlocks(name, pid, db.shots, db.passes, db.turnovers);
  }

  // Membership: the lists hold exactly the views of the selected rows.

  /** A shot is in a category's list exactly when some row of the player
      with that action type shows it. */
  lemma {:induction false} CategoryShotsMembers(rows: seq<ShotRow>, pid: int, c: Category, v: ShotView)
    ensures v in CategoryShots(rows, pid, c) <==>
      exists i :: 0 <= i < |rows| && Selected(rows[i].playerId, rows[i].actionType, pid, c) && ShotViewOf(rows[i]) == v
  {
    if rows != [] {
      CategoryShotsMembers(rows[1..], pid, c, v);
      if exists i :: 1 <= i < |rows| && Selected(rows[i].playerId, rows[i].actionType, pid, c) && ShotViewOf(rows[i]) == v {
        var i :| 1 <= i < |rows| && Selected(rows[i].playerId, rows[i].actionType, pid, c) && ShotViewOf(rows[i]) == v;
        assert rows[1..][i - 1] == rows[i];
      }
    }
  }

  lemma {:induction false} CategoryPassesMembers(rows: seq<PassRow>, pid: int, c: Category, v: PassView)
    ensures v in CategoryPasses(rows, pid, c) <==>
      exists i :: 0 <= i < |rows| && Selected(rows[i].playerId, rows[i].actionType, pid, c) && PassViewOf(rows[i]) == v
  {
    if rows != [] {
      CategoryPassesMembers(rows[1..], pid, c, v);
      if exists i :: 1 <= i < |rows| && Selected(rows[i].playerId, rows[i].actionType, pid, c) && PassViewOf(rows[i]) == v {
        var i :| 1 <= i < |rows| && Selected(rows[i].playerId, rows[i].actionType, pid, c) && PassViewOf(rows[i]) == v;
        assert rows[1..][i - 1] == rows[i];
      }
    }
  }

  lemma {:induction false} CategoryTurnoversMembers(rows: seq<TurnoverRow>, pid: int, c: Category, v: TurnoverView)
    ensures v in CategoryTurnovers(rows, pid, c) <==>
      exists i :: 0 <= i < |rows| && Selected(rows[i].playerId, rows[i].actionType, pid, c) && TurnoverViewOf(rows[i]) == v
  {
    if rows != [] {
      CategoryTurnoversMembers(rows[1..], pid, c, v);
      if exists i :: 1 <= i < |rows| && Selected(rows[i].playerId, rows[i].actionType, pid, c) && TurnoverViewOf(rows[i]) == v {
        var i :| 1 <= i < |rows| && Selected(rows[i].playerId, rows[i].actionType, pid, c) && TurnoverViewOf(rows[i]) == v;
        assert rows[1..][i - 1] == rows[i];
      }
    }
  }

  // The shape of a summary.

  /** In a summary, each block's metrics count its own lists, each
      `<category>Count` is its shots plus passes plus turnover-table rows,
      and no block or total has more potential assists or passing turnovers
      than passes. */
  lemma SummaryShape(db: Tables, pid: int)
    requires Summarize(db, pid).Ok?
    ensures var s := Summarize(db, pid).value;
      forall c :: && s.Block(c).metrics.shotAttempts == |s.Block(c).shots|
                  && s.Block(c).metrics.passes == |s.Block(c).passes|
                  && s.Block(c).metrics.turnovers == |s.Block(c).turnovers|
                  && s.Count(c) == |s.Block(c).shots| + |s.Block(c).passes| + |s.Block(c).turnovers|
                  && s.Block(c).metrics.potentialAssists <= s.Block(c).metrics.passes
                  && s.Block(c).metrics.passingTurnovers <= s.Block(c).metrics.passes
    ensures var s := Summarize(db, pid).value;
      s.totals.potentialAssists <= s.totals.passes && s.totals.passingTurnovers <= s.totals.passes
  {
    var name := FindPlayer(db.players, pid).value.fullName;
    SummaryOfBlocks(name, pid, db.shots, db.passes, db.turnovers);
    SummaryOfTotals(name, pid, db.shots, db.passes, db.turnovers);
  }

  // A passing turnover is counted once.

  lemma {:induction false} PassingTurnoversSnoc(passes: seq<PassView>, v: PassView)
    ensures PassingTurnovers(passes + [v]) == PassingTurnovers(passes) + (if v.isTurnover == Some(true) then 1 else 0)
  {
    if passes == [] {
      assert passes + [v] == [v];
      assert [v][1..] == [];
    } else {
      assert (passes + [v])[0] == passes[0] && (passes + [v])[1..] == passes[1..] + [v];
      PassingTurnoversSnoc(passes[1..], v);
    }
  }

  /** A new pass of the player in a category with `turnover` true adds one
      pass and one passing turnover to that category's block, but no
      turnover-table row: its `<category>Count` grows by one, not two. */
  lemma PassingTurnoverBlock(shotRows: seq<ShotRow>, passRows: seq<PassRow>, turnoverRows: seq<TurnoverRow>,
                             pid: int, c: Category, row: PassRow)
    requires CategoryBlock(shotRows, passRows, turnoverRows, pid, c).Ok?
    requires Selected(row.playerId, row.actionType, pid, c) && row.isTurnover == Some(true)
    ensures var before, after :=
      CategoryBlock(shotRows, passRows, turnoverRows, pid, c).value.metrics,
      CategoryBlock(shotRows, passRows + [row], turnoverRows, pid, c);
      && after.Ok?
      && after.value.metrics.passes == before.passes + 1
      && after.value.metrics.passingTurnovers == before.passingTurnovers + 1
      && after.value.metrics.turnovers == before.turnovers
      && after.value.metrics.shotAttempts == before.shotAttempts
      && after.value.metrics.ActionCount() == before.ActionCount() + 1
  {
    CategoryPassesAppend(passRows, [row], pid, c);
    assert CategoryPasses([row], pid, c) == [PassViewOf(row)];
    PassingTurnoversSnoc(CategoryPasses(passRows, pid, c), PassViewOf(row));
  }

  /** The same for a player's summary: the pass shows in its category's
      passes and passing turnovers, not in its turnovers, and the category's
      count grows by one. */
  lemma PassingTurnoverCountedOnce(db: Tables, pid: int, c: Category, row: PassRow)
    requires Summarize(db, pid).Ok?
    requires Selected(row.playerId, row.actionType, pid, c) && row.isTurnover == Some(true)
    ensures var before, after := Summarize(db, pid).value, Summarize(db.(passes := db.passes + [row]), pid);
      && after.Ok?
      && after.value.Block(c).metrics.passes == before.Block(c).metrics.passes + 1
      && after.value.Block(c).metrics.passingTurnovers == before.Block(c).metrics.passingTurnovers + 1
      && after.value.Block(c).metrics.turnovers == before.Block(c).metrics.turnovers
      && after.value.Count(c) == before.Count(c) + 1
  {
    var db' := db.(passes := db.passes + [row]);
    var name := FindPlayer(db.players, pid).value.fullName;
    assert FindPlayer(db'.players, pid) == FindPlayer(db.players, pid);
    SummaryOfBlocks(name, pid, db.shots, db.passes, db.turnovers);
    forall c' ensures CategoryBlock(db'.shots, db'.passes, db'.turnovers, pid, c').Ok? {
      if c' == c {
        PassingTurnoverBlock(db.shots, db.passes, db.turnovers, pid, c, row);
      } else {
        CategoryPassesAppend(db.passes, [row], pid, c');
        assert CategoryPasses([row], pid, c') == [];
        AppendEmpty(CategoryPasses(db.passes, pid, c'));
      }
    }
    PassingTurnoverBlock(db.shots, db.passes, db.turnovers, pid, c, row);
    SummaryOfBlocks(name, pid, db'.shots, db'.passes, db'.turnovers);
  }
}
