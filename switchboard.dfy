/** The main switchboard of fmrd_switchboard.py.

    Each menu action and button opens one dialog.  The setup and the basic entry
    dialogs open unconditionally; venue, match and match-event entry open only when
    the readiness check for them passes, and show an explanatory prompt otherwise. */
module Switchboard {
  import opened CheckTables
  import RecordEditor

  /** The switchboard's slots, one per menu action or button. */
  datatype Action =
    | OpenAbout
    | OpenCards | OpenFouls | OpenPenOutcomes | OpenGoalEvents | OpenGoalStrikes
    | OpenFieldPositions | OpenFlankPositions | OpenPositions | OpenCountries
    | OpenConfederations | OpenRounds | OpenWeatherConditions
    | OpenCompetitions | OpenTeams | OpenPlayers | OpenManagers | OpenReferees
    | OpenVenues | OpenMatches | OpenGoals | OpenPenalties | OpenOffenses
    | OpenSubstitutions | OpenPosSwitches

  /** The dialogs the switchboard opens: the about box, a setup dialog for a catalog
      entity, or a data-entry dialog. */
  datatype Dialog =
    | About
    | Setup(entity: RecordEditor.Entity)
    | CompetitionEntry | TeamEntry | PlayerEntry | ManagerEntry | RefereeEntry
    | VenueEntry | MatchEntry | GoalEntry | PenaltyEntry | OffenseEntry
    | SubstitutionEntry | SwitchEntry

  /** The explanatory prompts shown when a readiness check fails. */
  datatype Prompt = VenueError | MatchError | MatchDetailError | SubstitutesError

  datatype Outcome = ShowDialog(dialog: Dialog) | ShowPrompt(prompt: Prompt)

  /** What a slot does, given the state of the database. */
  function Respond(a: Action, ctx: Context): Outcome {
    match a
    case OpenAbout => ShowDialog(About)
    case OpenCards => ShowDialog(Setup(RecordEditor.Cards))
    case OpenFouls => ShowDialog(Setup(RecordEditor.Fouls))
    case OpenPenOutcomes => ShowDialog(Setup(RecordEditor.PenaltyOutcomes))
    case OpenGoalEvents => ShowDialog(Setup(RecordEditor.GoalEvents))
    case OpenGoalStrikes => ShowDialog(Setup(RecordEditor.GoalStrikes))
    case OpenFieldPositions => ShowDialog(Setup(RecordEditor.FieldPositions))
    case OpenFlankPositions => ShowDialog(Setup(RecordEditor.FlankPositions))
    case OpenPositions => ShowDialog(Setup(RecordEditor.Positions))
    case OpenCountries => ShowDialog(Setup(RecordEditor.Countries))
    case OpenConfederations => ShowDialog(Setup(RecordEditor.Confederations))
    case OpenRounds => ShowDialog(Setup(RecordEditor.Rounds))
    case OpenWeatherConditions => ShowDialog(Setup(RecordEditor.Weather))
    case OpenCompetitions => ShowDialog(CompetitionEntry)
    case OpenTeams => ShowDialog(TeamEntry)
    case OpenPlayers => ShowDialog(PlayerEntry)
    case OpenManagers => ShowDialog(ManagerEntry)
    case OpenReferees => ShowDialog(RefereeEntry)
    case OpenVenues =>
      if !CheckMinimumVenueHosts(ctx) then ShowPrompt(VenueError) else ShowDialog(VenueEntry)
    case OpenMatches =>
      if !CheckMinimumMatchCriteria(ctx) then ShowPrompt(MatchError) else ShowDialog(MatchEntry)
    case OpenGoals =>
      if !CheckMinimumLineups(ctx) then ShowPrompt(MatchDetailError) else ShowDialog(GoalEntry)
    case OpenPenalties =>
      if !CheckMinimumLineups(ctx) then ShowPrompt(MatchDetailError) else ShowDialog(PenaltyEntry)
    case OpenOffenses =>
      if !CheckMinimumLineups(ctx) then ShowPrompt(MatchDetailError) else ShowDialog(OffenseEntry)
    case OpenSubstitutions =>
      if !CheckMinimumSubstitutes(ctx) then ShowPrompt(SubstitutesError) else ShowDialog(SubstitutionEntry)
    case OpenPosSwitches =>
      if !CheckMinimumLineups(ctx) then ShowPrompt(MatchDetailError) else ShowDialog(SwitchEntry)
  }

  // The gating policy, stated as a table independent of Respond

  /** The readiness checks that guard dialogs. */
  datatype Gate = VenueHostsGate | MatchCriteriaGate | LineupsGate | SubstitutesGate

  datatype Option<T> = None | Some(value: T)

  /** Which gate guards which dialog: venues need hosts, matches need the match
      criteria, substitutions need substitutes, and every other match-event dialog
      needs lineups; nothing else is guarded. */
  function GateOf(d: Dialog): Option<Gate> {
    match d
    case VenueEntry => Some(VenueHostsGate)
    case MatchEntry => Some(MatchCriteriaGate)
    case GoalEntry | PenaltyEntry | OffenseEntry | SwitchEntry => Some(LineupsGate)
    case SubstitutionEntry => Some(SubstitutesGate)
    case _ => None
  }

  function PromptOf(g: Gate): Prompt {
    match g
    case VenueHostsGate => VenueError
    case MatchCriteriaGate => MatchError
    case LineupsGate => MatchDetailError
    case SubstitutesGate => SubstitutesError
  }

  function GateHolds(g: Gate, ctx: Context): bool {
    match g
    case VenueHostsGate => CheckMinimumVenueHosts(ctx)
    case MatchCriteriaGate => CheckMinimumMatchCriteria(ctx)
    case LineupsGate => CheckMinimumLineups(ctx)
    case SubstitutesGate => CheckMinimumSubstitutes(ctx)
  }

  /** The dialog each slot is for. */
  function Target(a: Action): Dialog {
    match a
    case OpenAbout => About
    case OpenCards => Setup(RecordEditor.Cards)
    case OpenFouls => Setup(RecordEditor.Fouls)
    case OpenPenOutcomes => Setup(RecordEditor.PenaltyOutcomes)
    case OpenGoalEvents => Setup(RecordEditor.GoalEvents)
    case OpenGoalStrikes => Setup(RecordEditor.GoalStrikes)
    case OpenFieldPositions => Setup(RecordEditor.FieldPositions)
    case OpenFlankPositions => Setup(RecordEditor.FlankPositions)
    case OpenPositions => Setup(RecordEditor.Positions)
    case OpenCountries => Setup(RecordEditor.Countries)
    case OpenConfederations => Setup(RecordEditor.Confederations)
    case OpenRounds => Setup(RecordEditor.Rounds)
    case OpenWeatherConditions => Setup(RecordEditor.Weather)
    case OpenCompetitions => CompetitionEntry
    case OpenTeams => TeamEntry
    case OpenPlayers => PlayerEntry
    case OpenManagers => ManagerEntry
    case OpenReferees => RefereeEntry
    case OpenVenues => VenueEntry
    case OpenMatches => MatchEntry
    case OpenGoals => GoalEntry
    case OpenPenalties => PenaltyEntry
    case OpenOffenses => OffenseEntry
    case OpenSubstitutions => SubstitutionEntry
    case OpenPosSwitches => SwitchEntry
  }

  /** Every slot follows the gating policy: an unguarded dialog always opens; a guarded
      one opens exactly when its gate holds, and its gate's prompt is shown otherwise. */
  lemma RespondFollowsPolicy(a: Action, ctx: Context)
    ensures GateOf(Target(a)).None? ==> Respond(a, ctx) == ShowDialog(Target(a))
    ensures GateOf(Target(a)).Some? ==>
      var g := GateOf(Target(a)).value;
      Respond(a, ctx) == if GateHolds(g, ctx) then ShowDialog(Target(a)) else ShowPrompt(PromptOf(g))
  {
  }

  /** Distinct slots are for distinct dialogs, and every setup dialog opens
      unconditionally. */
  lemma TargetsAreDistinct(a: Action, b: Action)
    ensures a != b ==> Target(a) != Target(b)
    ensures Target(a).Setup? ==> forall ctx: Context :: Respond(a, ctx) == ShowDialog(Target(a))
  {
  }

  /** With no query failing and the documented minimums, an empty database keeps every
      guarded dialog closed and opens every other one. */
  lemma EmptyDatabaseIsGated(a: Action)
    ensures var ctx := Context(Store([], [], [], [], [], [], []), {}, DocumentedMinimums);
      Respond(a, ctx).ShowPrompt? <==> GateOf(Target(a)).Some?
  {
  }

  /** Any database that admits match entry also admits venue entry. */
  lemma MatchEntryImpliesVenueEntry(ctx: Context)
    ensures Respond(OpenMatches, ctx).ShowDialog? ==> Respond(OpenVenues, ctx).ShowDialog?
  {
  }

  /** Adding rows never closes a dialog that was open: with the same failing queries
      and minimums, a slot that showed its dialog still does after rows are appended
      to the competition, team, manager, referee, lineup and position tables. */
  lemma OpeningIsMonotone(a: Action, ctx: Context, more: Store)
    requires ctx.db.positions <= more.positions
    requires ctx.db.competitions <= more.competitions && ctx.db.teams <= more.teams
    requires ctx.db.managers <= more.managers && ctx.db.referees <= more.referees
    requires ctx.db.lineups <= more.lineups
    ensures Respond(a, ctx).ShowDialog? ==> Respond(a, ctx.(db := more)).ShowDialog?
  {
    ChecksMonotone(ctx, more);
  }
}
