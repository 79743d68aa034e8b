/** Readiness checks over the FMRD tables (FmrdLib/CheckTables.py).

    Each check of the source prepares one `COUNT(*)` query, executes it and, when the
    query is active, compares the count with a configured minimum.  Here the database
    is a value holding every table as a sequence of rows, a query that fails to execute
    is one listed in `failing`, and the configured minimums are a parameter. */
module CheckTables {
  import opened Counting

  /** A row of the lineup table: who plays for which team in which match. */
  datatype LineupRow = LineupRow(
    matchId: int, teamId: int, playerId: int, positionId: int,
    starting: bool, captain: bool)

  /** A row of the position catalog. */
  datatype PositionRow = PositionRow(positionId: int, positionName: string)

  /** The tables the checks read.  Catalog tables only matter through their row
      count, so each row is its primary key. */
  datatype Store = Store(
    competitions: seq<int>, teams: seq<int>, venues: seq<int>,
    managers: seq<int>, referees: seq<int>,
    lineups: seq<LineupRow>, positions: seq<PositionRow>)

  /** The queries the checks issue; the scoped ones carry their bound match and team. */
  datatype Query =
    | CompetitionCount | TeamCount | VenueHostCount | ManagerCount | RefereeCount
    | StarterCount | StartingCaptainCount | StartingGoalkeeperCount | SubstituteCount
    | ScopedStarterCount(matchId: int, teamId: int)
    | ScopedSubstituteCount(matchId: int, teamId: int)
    | ScopedCaptainCount(matchId: int, teamId: int)
    | ScopedGoalkeeperCount(matchId: int, teamId: int)

  /** The `MIN_*` values of the application's constants. */
  datatype Minimums = Minimums(
    competitions: int, teams: int, venueHosts: int, managers: int, referees: int,
    starters: int, startingCaptains: int, startingGoalkeepers: int, substitutes: int)

  /** The minimums the comments of the checks describe. */
  const DocumentedMinimums := Minimums(1, 2, 1, 2, 1, 11, 1, 1, 3)

  /** Everything a check depends on: the data, which queries fail to execute,
      and the configured minimums. */
  datatype Context = Context(db: Store, failing: set<Query>, mins: Minimums)

  /** The name the position catalog gives to goalkeepers. */
  const GoalkeeperName := "Goalkeeper"

  predicate Active(ctx: Context, q: Query) {
    q !in ctx.failing
  }

  /** `position_id IN (SELECT position_id FROM positions_list WHERE position_name = 'Goalkeeper')` */
  predicate IsGoalkeeperPosition(positions: seq<PositionRow>, positionId: int) {
    exists k :: 0 <= k < |positions| && positions[k].positionId == positionId
                                     && positions[k].positionName == GoalkeeperName
  }

  // WHERE clauses over the lineup table

  function Starter(): LineupRow -> bool {
    (r: LineupRow) => r.starting
  }

  function StartingCaptain(): LineupRow -> bool {
    (r: LineupRow) => r.starting && r.captain
  }

  function StartingGoalkeeper(positions: seq<PositionRow>): LineupRow -> bool {
    (r: LineupRow) => r.starting && IsGoalkeeperPosition(positions, r.positionId)
  }

  function Substitute(): LineupRow -> bool {
    (r: LineupRow) => !r.starting
  }

  function InLineup(matchId: int, teamId: int): LineupRow -> bool {
    (r: LineupRow) => r.matchId == matchId && r.teamId == teamId
  }

  function StarterIn(matchId: int, teamId: int): LineupRow -> bool {
    (r: LineupRow) => r.matchId == matchId && r.teamId == teamId && r.starting
  }

  function SubstituteIn(matchId: int, teamId: int): LineupRow -> bool {
    (r: LineupRow) => r.matchId == matchId && r.teamId == teamId && !r.starting
  }

  function CaptainIn(matchId: int, teamId: int): LineupRow -> bool {
    (r: LineupRow) => r.matchId == matchId && r.teamId == teamId && r.starting && r.captain
  }

  function GoalkeeperIn(positions: seq<PositionRow>, matchId: int, teamId: int): LineupRow -> bool {
    (r: LineupRow) => r.matchId == matchId && r.teamId == teamId && r.starting
         && IsGoalkeeperPosition(positions, r.positionId)
  }

  // Single-table checks

  function CheckMinimumCompetitions(ctx: Context): bool {
    if Active(ctx, CompetitionCount) then |ctx.db.competitions| >= ctx.mins.competitions else false
  }

  function CheckMinimumTeams(ctx: Context): bool {
    if Active(ctx, TeamCount) then |ctx.db.teams| >= ctx.mins.teams else false
  }

  /** Counts the teams table (every team can host a venue), not the venues table. */
  function CheckMinimumVenueHosts(ctx: Context): bool {
    if Active(ctx, VenueHostCount) then |ctx.db.teams| >= ctx.mins.venueHosts else false
  }

  function CheckMinimumManagers(ctx: Context): bool {
    if Active(ctx, ManagerCount) then |ctx.db.managers| >= ctx.mins.managers else false
  }

  function CheckMinimumReferees(ctx: Context): bool {
    if Active(ctx, RefereeCount) then |ctx.db.referees| >= ctx.mins.referees else false
  }

  /** Nested and short-circuiting as in the source: competitions first, then venue
      hosts and teams, then managers and referees. */
  function CheckMinimumMatchCriteria(ctx: Context): bool {
    if CheckMinimumCompetitions(ctx) then
      if CheckMinimumVenueHosts(ctx) && CheckMinimumTeams(ctx) then
        if CheckMinimumManagers(ctx) && CheckMinimumReferees(ctx) then true
        else false
      else false
    else false
  }

  /** The queries CheckMinimumMatchCriteria issues, in order. */
  function MatchCriteriaQueries(ctx: Context): seq<Query> {
    [CompetitionCount] +
    if !CheckMinimumCompetitions(ctx) then [] else
      [VenueHostCount] +
      (if !CheckMinimumVenueHosts(ctx) then [] else
        [TeamCount] +
        (if !CheckMinimumTeams(ctx) then [] else
          [ManagerCount] + (if !CheckMinimumManagers(ctx) then [] else [RefereeCount])))
  }

  // Whole-table lineup checks (not scoped to a match or team)

  function TotalStarters(db: Store): nat {
    Count(db.lineups, Starter())
  }

  function TotalStartingCaptains(db: Store): nat {
    Count(db.lineups, StartingCaptain())
  }

  function TotalStartingGoalkeepers(db: Store): nat {
    Count(db.lineups, StartingGoalkeeper(db.positions))
  }

  function TotalSubstitutes(db: Store): nat {
    Count(db.lineups, Substitute())
  }

  function CheckMinimumLineups(ctx: Context): bool {
    if Active(ctx, StarterCount) && Active(ctx, StartingCaptainCount) && Active(ctx, StartingGoalkeeperCount) then
      TotalStarters(ctx.db) >= ctx.mins.starters
      && TotalStartingCaptains(ctx.db) >= ctx.mins.startingCaptains
      && TotalStartingGoalkeepers(ctx.db) >= ctx.mins.startingGoalkeepers
    else false
  }

  function CheckMinimumSubstitutes(ctx: Context): bool {
    if Active(ctx, SubstituteCount) then TotalSubstitutes(ctx.db) >= ctx.mins.substitutes else false
  }

  // Counts scoped to one match and team; a query that yields no row counts 0

  function CountStarters(ctx: Context, matchId: int, teamId: int): nat {
    if Active(ctx, ScopedStarterCount(matchId, teamId)) then Count(ctx.db.lineups, StarterIn(matchId, teamId)) else 0
  }

  function CountSubstitutes(ctx: Context, matchId: int, teamId: int): nat {
    if Active(ctx, ScopedSubstituteCount(matchId, teamId)) then Count(ctx.db.lineups, SubstituteIn(matchId, teamId)) else 0
  }

  function CountCaptains(ctx: Context, matchId: int, teamId: int): nat {
    if Active(ctx, ScopedCaptainCount(matchId, teamId)) then Count(ctx.db.lineups, CaptainIn(matchId, teamId)) else 0
  }

  function CountGoalkeepers(ctx: Context, matchId: int, teamId: int): nat {
    if Active(ctx, ScopedGoalkeeperCount(matchId, teamId)) then
      Count(ctx.db.lineups, GoalkeeperIn(ctx.db.positions, matchId, teamId))
    else 0
  }

  /** The number of lineup rows entered for one team in one match. */
  function LineupSize(db: Store, matchId: int, teamId: int): nat {
    Count(db.lineups, InLineup(matchId, teamId))
  }

  // Properties

  /** Every check fails closed: a query that does not execute can only close a gate
      or lower a count.  With more queries failing, every check that passes also
      passed before, and every per-team count is no larger than before. */
  lemma FailClosed(ctx: Context, failing: set<Query>, matchId: int, teamId: int)
    requires ctx.failing <= failing
    ensures var worse := ctx.(failing := failing);
      && (CheckMinimumCompetitions(worse) ==> CheckMinimumCompetitions(ctx))
      && (CheckMinimumTeams(worse) ==> CheckMinimumTeams(ctx))
      && (CheckMinimumVenueHosts(worse) ==> CheckMinimumVenueHosts(ctx))
      && (CheckMinimumManagers(worse) ==> CheckMinimumManagers(ctx))
      && (CheckMinimumReferees(worse) ==> CheckMinimumReferees(ctx))
      && (CheckMinimumMatchCriteria(worse) ==> CheckMinimumMatchCriteria(ctx))
      && (CheckMinimumLineups(worse) ==> CheckMinimumLineups(ctx))
      && (CheckMinimumSubstitutes(worse) ==> CheckMinimumSubstitutes(ctx))
      && CountStarters(worse, matchId, teamId) <= CountStarters(ctx, matchId, teamId)
      && CountSubstitutes(worse, matchId, teamId) <= CountSubstitutes(ctx, matchId, teamId)
      && CountCaptains(worse, matchId, teamId) <= CountCaptains(ctx, matchId, teamId)
      && CountGoalkeepers(worse, matchId, teamId) <= CountGoalkeepers(ctx, matchId, teamId)
  {
  }

  /** Both checks count the teams table: with the venue-host minimum no larger than
      the team minimum, a passing team check implies a passing venue-host check when
      both queries execute, and the venue-host check ignores the venues table. */
  lemma TeamsImplyVenueHosts(ctx: Context, venues: seq<int>)
    requires ctx.mins.venueHosts <= ctx.mins.teams
    requires Active(ctx, VenueHostCount)
    ensures CheckMinimumTeams(ctx) ==> CheckMinimumVenueHosts(ctx)
    ensures CheckMinimumVenueHosts(ctx) == CheckMinimumVenueHosts(ctx.(db := ctx.db.(venues := venues)))
  {
  }

  function Max(a: int, b: int): int {
    if a >= b then a else b
  }

  /** With its five queries executing, match entry is ready exactly when the tables
      hold enough competitions, managers and referees, and enough teams for both the
      team minimum and the venue-host minimum (both read the teams table). */
  lemma MatchCriteriaOverTables(ctx: Context)
    requires Active(ctx, CompetitionCount) && Active(ctx, TeamCount) && Active(ctx, VenueHostCount)
    requires Active(ctx, ManagerCount) && Active(ctx, RefereeCount)
    ensures CheckMinimumMatchCriteria(ctx) <==>
      && |ctx.db.competitions| >= ctx.mins.competitions
      && |ctx.db.teams| >= Max(ctx.mins.venueHosts, ctx.mins.teams)
      && |ctx.db.managers| >= ctx.mins.managers
      && |ctx.db.referees| >= ctx.mins.referees
  {
  }

  /** A failing competition check stops the evaluation before any other query; a
      passing criteria check has issued all five queries. */
  lemma MatchCriteriaShortCircuits(ctx: Context)
    ensures MatchCriteriaQueries(ctx)[0] == CompetitionCount
    ensures !CheckMinimumCompetitions(ctx) ==> MatchCriteriaQueries(ctx) == [CompetitionCount]
    ensures CheckMinimumMatchCriteria(ctx) ==>
      MatchCriteriaQueries(ctx) == [CompetitionCount, VenueHostCount, TeamCount, ManagerCount, RefereeCount]
  {
  }

  /** A passing lineup check with positive captain and goalkeeper minimums means that
      the lineup table holds a starting captain and a starting goalkeeper. */
  lemma LineupsWitnesses(ctx: Context)
    requires CheckMinimumLineups(ctx)
    requires ctx.mins.startingCaptains >= 1 && ctx.mins.startingGoalkeepers >= 1
    ensures exists i :: 0 <= i < |ctx.db.lineups| && ctx.db.lineups[i].starting && ctx.db.lineups[i].captain
    ensures exists i :: 0 <= i < |ctx.db.lineups| && ctx.db.lineups[i].starting
                        && IsGoalkeeperPosition(ctx.db.positions, ctx.db.lineups[i].positionId)
    ensures |ctx.db.lineups| >= ctx.mins.starters
  {
    CountPositive(ctx.db.lineups, StartingCaptain());
    CountPositive(ctx.db.lineups, StartingGoalkeeper(ctx.db.positions));
  }

  /** The substitutes check passes exactly when its query executes and the whole
      lineup table holds at least the minimum of non-starting rows; these rows
      together with the starters make up the whole table. */
  lemma SubstitutesCheck(ctx: Context)
    ensures CheckMinimumSubstitutes(ctx) <==> Active(ctx, SubstituteCount) && TotalSubstitutes(ctx.db) >= ctx.mins.substitutes
    ensures TotalStarters(ctx.db) + TotalSubstitutes(ctx.db) == |ctx.db.lineups|
  {
    CountPartition(ctx.db.lineups, (r: LineupRow) => true, Starter(), Substitute());
    AllCounted(ctx.db.lineups);
  }

  lemma {:induction false} AllCounted(rows: seq<LineupRow>)
    ensures Count(rows, (r: LineupRow) => true) == |rows|
  {
    if rows != [] {
      AllCounted(rows[1..]);
    }
  }

  /** When both scoped queries execute, starters and substitutes of a match and team
      add up to the number of lineup rows for that pair. */
  lemma StartersPlusSubstitutes(ctx: Context, matchId: int, teamId: int)
    requires Active(ctx, ScopedStarterCount(matchId, teamId)) && Active(ctx, ScopedSubstituteCount(matchId, teamId))
    ensures CountStarters(ctx, matchId, teamId) + CountSubstitutes(ctx, matchId, teamId) == LineupSize(ctx.db, matchId, teamId)
  {
    CountPartition(ctx.db.lineups, InLineup(matchId, teamId), StarterIn(matchId, teamId), SubstituteIn(matchId, teamId));
  }

  /** Captains and goalkeepers are counted among the starters, so neither count
      exceeds the starter count (when the starter query executes). */
  lemma CaptainsAndGoalkeepersAmongStarters(ctx: Context, matchId: int, teamId: int)
    requires Active(ctx, ScopedStarterCount(matchId, teamId))
    ensures CountCaptains(ctx, matchId, teamId) <= CountStarters(ctx, matchId, teamId)
    ensures CountGoalkeepers(ctx, matchId, teamId) <= CountStarters(ctx, matchId, teamId)
  {
    CountMonotone(ctx.db.lineups, CaptainIn(matchId, teamId), StarterIn(matchId, teamId));
    CountMonotone(ctx.db.lineups, GoalkeeperIn(ctx.db.positions, matchId, teamId), StarterIn(matchId, teamId));
  }

  /** The scoped counts see only the rows of their own match and team: appending rows
      of any other pair leaves all four unchanged. */
  lemma ScopedCountsIgnoreOtherPairs(ctx: Context, matchId: int, teamId: int, extra: seq<LineupRow>)
    requires forall i :: 0 <= i < |extra| ==> extra[i].matchId != matchId || extra[i].teamId != teamId
    ensures var ctx' := ctx.(db := ctx.db.(lineups := ctx.db.lineups + extra));
      && CountStarters(ctx', matchId, teamId) == CountStarters(ctx, matchId, teamId)
      && CountSubstitutes(ctx', matchId, teamId) == CountSubstitutes(ctx, matchId, teamId)
      && CountCaptains(ctx', matchId, teamId) == CountCaptains(ctx, matchId, teamId)
      && CountGoalkeepers(ctx', matchId, teamId) == CountGoalkeepers(ctx, matchId, teamId)
  {
    CountIgnores(ctx.db.lineups, extra, StarterIn(matchId, teamId));
    CountIgnores(ctx.db.lineups, extra, SubstituteIn(matchId, teamId));
    CountIgnores(ctx.db.lineups, extra, CaptainIn(matchId, teamId));
    CountIgnores(ctx.db.lineups, extra, GoalkeeperIn(ctx.db.positions, matchId, teamId));
  }

  /** A scoped count never exceeds the corresponding whole-table count. */
  lemma ScopedWithinWholeTable(ctx: Context, matchId: int, teamId: int)
    ensures CountStarters(ctx, matchId, teamId) <= TotalStarters(ctx.db)
    ensures CountSubstitutes(ctx, matchId, teamId) <= TotalSubstitutes(ctx.db)
    ensures CountCaptains(ctx, matchId, teamId) <= TotalStartingCaptains(ctx.db)
    ensures CountGoalkeepers(ctx, matchId, teamId) <= TotalStartingGoalkeepers(ctx.db)
  {
    CountMonotone(ctx.db.lineups, StarterIn(matchId, teamId), Starter());
    CountMonotone(ctx.db.lineups, SubstituteIn(matchId, teamId), Substitute());
    CountMonotone(ctx.db.lineups, CaptainIn(matchId, teamId), StartingCaptain());
    CountMonotone(ctx.db.lineups, GoalkeeperIn(ctx.db.positions, matchId, teamId), StartingGoalkeeper(ctx.db.positions));
  }

  /** The whole-table lineup check can pass although no single team has a complete
      lineup: two teams of one match with one starter each (one a captain, the other
      a goalkeeper) pass it with a starter minimum of two. */
  lemma WholeTableLineupCheckIsNotPerTeam()
    ensures var gk := PositionRow(1, GoalkeeperName);
      var db := Store([], [], [], [], [],
                      [LineupRow(7, 1, 10, 2, true, true), LineupRow(7, 2, 20, 1, true, false)], [gk]);
      var ctx := Context(db, {}, Minimums(1, 2, 1, 2, 1, 2, 1, 1, 3));
      && CheckMinimumLineups(ctx)
      && CountStarters(ctx, 7, 1) < ctx.mins.starters
      && CountStarters(ctx, 7, 2) < ctx.mins.starters
  {
    var gk := PositionRow(1, GoalkeeperName);
    var rows := [LineupRow(7, 1, 10, 2, true, true), LineupRow(7, 2, 20, 1, true, false)];
    var db := Store([], [], [], [], [], rows, [gk]);
    assert IsGoalkeeperPosition([gk], 1) by { assert [gk][0] == gk; }
    assert !IsGoalkeeperPosition([gk], 2);
    assert rows[1..][1..] == [];
  }

  /** Growing the tables never closes a gate: with the same failing queries and
      minimums, every check that passes still passes after rows are appended to the
      competition, team, manager, referee, lineup and position tables.  A new position
      can only add goalkeeper positions, so the goalkeeper count can only grow. */
  lemma ChecksMonotone(ctx: Context, more: Store)
    requires ctx.db.positions <= more.positions
    requires ctx.db.competitions <= more.competitions && ctx.db.teams <= more.teams
    requires ctx.db.managers <= more.managers && ctx.db.referees <= more.referees
    requires ctx.db.lineups <= more.lineups
    ensures var ctx' := ctx.(db := more);
      && (CheckMinimumMatchCriteria(ctx) ==> CheckMinimumMatchCriteria(ctx'))
      && (CheckMinimumVenueHosts(ctx) ==> CheckMinimumVenueHosts(ctx'))
      && (CheckMinimumLineups(ctx) ==> CheckMinimumLineups(ctx'))
      && (CheckMinimumSubstitutes(ctx) ==> CheckMinimumSubstitutes(ctx'))
  {
    var old_ := ctx.db.lineups;
    var extra := more.lineups[|old_|..];
    assert more.lineups == old_ + extra;
    CountAppend(old_, extra, Starter());
    CountAppend(old_, extra, StartingCaptain());
    CountAppend(old_, extra, StartingGoalkeeper(ctx.db.positions));
    CountAppend(old_, extra, Substitute());
    GoalkeepersGrowWithCatalog(ctx.db.positions, more.positions);
    CountMonotone(more.lineups, StartingGoalkeeper(ctx.db.positions), StartingGoalkeeper(more.positions));
  }

  /** A longer position catalog keeps every goalkeeper position it already had. */
  lemma GoalkeepersGrowWithCatalog(ps: seq<PositionRow>, qs: seq<PositionRow>)
    requires ps <= qs
    ensures forall r :: StartingGoalkeeper(ps)(r) ==> StartingGoalkeeper(qs)(r)
  {
    forall r | StartingGoalkeeper(ps)(r)
      ensures StartingGoalkeeper(qs)(r)
    {
      var k :| 0 <= k < |ps| && ps[k].positionId == r.positionId && ps[k].positionName == GoalkeeperName;
      assert qs[k] == ps[k];
    }
  }
}
