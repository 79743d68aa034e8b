# FMRD desktop: readiness gates, setup record editor and switchboard

The Football Match Result Database desktop tool is a PyQt front end for a football
statistics database. This project models three parts of it in Dafny and proves
properties of those models.

- **Readiness gates** (`FmrdLib/CheckTables.py`, module `CheckTables` in
  `check_tables.dfy`). These are the row-count checks that decide whether venue,
  match and match-event entry may open. The per-team lineup counts are modelled too.
  Every query is a `COUNT(*)` over an in-memory table (`Counting.Count` in
  `counting.dfy`). A query that does not execute is a member of `Context.failing`.
  The minimums are fields of `Minimums`, so every result holds for any
  configuration. `DocumentedMinimums` holds the values the comments document.
- **Setup record editor** (`fmrd_setup.py`, module `RecordEditor` in
  `record_editor.dfy`). The nineteen setup dialogs are near-copies of one editor.
  They differ in table, dependent tables and save behaviour, and the venue-surface
  dialog also differs in how it closes.
  - `Editor` is that editor as a class with a table (`rows`), the mapper's current
    index (`cursor`), the form and the six buttons.
  - `Config` holds each dialog's table, dependent tables and save mode.
  - The answers of the duplicate check, of the save, discard and delete prompts,
    and of commits are inputs of the methods.
  - The guard against deleting a referenced record is `ChildGuard.CountChildRecords`
    (`child_guard.dfy`).
- **Switchboard** (`fmrd_switchboard.py`, module `Switchboard` in
  `switchboard.dfy`). `Respond` maps each menu action or button to the dialog it
  opens or the prompt it shows.

`CheckMinimumLineups` and `CheckMinimumSubstitutes` count over the whole lineup
table; only the `Count*` helpers are scoped to one match and team. A per-team reading
of the lineup requirement therefore does not hold for the code, and the model
follows the code. `CheckTables.WholeTableLineupCheckIsNotPerTeam` exhibits a
database that passes the lineup check although no team has a complete lineup.

## Model

| member | source | states |
|---|---|---|
| CheckTables.FailClosed | code/pyqt/FmrdLib/CheckTables.py:33-287 | Failing queries only close gates: with more queries failing, every gate check that passes also passed before, and every per-team count is no larger than before. |
| CheckTables.TeamsImplyVenueHosts | code/pyqt/FmrdLib/CheckTables.py:53-87 | Both checks read the teams table, so with a venue-host minimum no larger than the team minimum, passing the team check implies passing the venue-host check whenever the venue-host query executes. The venue-host check ignores the venues table. |
| CheckTables.MatchCriteriaOverTables | code/pyqt/FmrdLib/CheckTables.py:139-146 | With its five queries executing, match entry is ready iff there are enough competitions, managers and referees, and at least max(venue-host minimum, team minimum) teams. |
| CheckTables.MatchCriteriaShortCircuits | code/pyqt/FmrdLib/CheckTables.py:139-146 | The competitions query comes first. A failing competition check issues no other query. A passing criteria check has issued all five queries in source order. |
| CheckTables.LineupsWitnesses | code/pyqt/FmrdLib/CheckTables.py:155-187 | A passing lineup check (with positive captain and goalkeeper minimums) means the table holds a starting captain and a starting goalkeeper, and at least the starter minimum of rows. |
| CheckTables.SubstitutesCheck | code/pyqt/FmrdLib/CheckTables.py:194-209 | The substitutes check passes iff its query executes and the non-starting rows reach the minimum. Starters plus substitutes make up the whole lineup table. |
| CheckTables.StartersPlusSubstitutes | code/pyqt/FmrdLib/CheckTables.py:217-247 | For one match and team, starters plus substitutes equal the number of lineup rows of that pair. |
| CheckTables.CaptainsAndGoalkeepersAmongStarters | code/pyqt/FmrdLib/CheckTables.py:255-287 | The per-team captain and goalkeeper counts never exceed that team's starter count. |
| CheckTables.ScopedCountsIgnoreOtherPairs | code/pyqt/FmrdLib/CheckTables.py:217-287 | The four per-team counts are unchanged by lineup rows of any other match or team. |
| CheckTables.ScopedWithinWholeTable | code/pyqt/FmrdLib/CheckTables.py:155-287 | Each per-team count is at most the corresponding whole-table count. |
| CheckTables.WholeTableLineupCheckIsNotPerTeam | code/pyqt/FmrdLib/CheckTables.py:148-187 | A concrete database passes the lineup check although each team's starter count is below the minimum: the check is not per team. |
| CheckTables.ChecksMonotone | code/pyqt/FmrdLib/CheckTables.py:33-209 | With the same failing queries and minimums, appending rows to the competition, team, manager, referee, lineup or position table never turns a passing gate check into a failing one. A new position can only add goalkeeper positions. |
| ChildGuard.ChildRecordsIffReferenced | code/pyqt/fmrd_setup.py:238-244 | The child-record count is positive iff some declared dependent table has a row whose key column holds the record's id. |
| ChildGuard.CountChildRecordsAppend | code/pyqt/fmrd_setup.py:238-244 | The count over a concatenated table list is the sum of the counts over the two lists. |
| ChildGuard.ChildRecordsOrderIndependent | code/pyqt/fmrd_setup.py:238-244 | Any reordering of the dependent-table list (the same tables as a multiset) gives the same count. |
| RecordEditor.ConfigModes | code/pyqt/fmrd_setup.py:2791-2800 | Only the positions dialog skips the duplicate check. Only the card and confederation dialogs save without a prompt. Only the card dialog stops adding on a failed commit. Only the venue-surface dialog stays open when closed on a duplicate. Every dialog declares a dependent table. |
| RecordEditor.MaxId | code/pyqt/fmrd_setup.py:196-199 | `MAX(id)` is 0 on an empty table. Otherwise it is one of the ids and no id exceeds it. |
| RecordEditor.NewIdIsFresh | code/pyqt/fmrd_setup.py:196-205 | A new id (max + 1, or the minimum id when the max reads 0) is never an existing id when the minimum id is positive, and exceeds every id when the max is non-zero. An empty table gets the minimum id. |
| RecordEditor.SaveStepPolicy | code/pyqt/fmrd_setup.py:129-142 | A clean row moves on without saving. A row is stored only when it is dirty, not a duplicate (where checked) and confirmed (where asked). A duplicate reverts and stays. Only the card dialog's add stops on a failed commit. Discarding reverts and stays in the positions dialog and moves on in the prompted dialogs. |
| RecordEditor.LoadAndStoreAreClean | code/pyqt/fmrd_setup.py:264-282 | Loading a row or storing the form into it leaves the form clean. Storing changes that row only. |
| RecordEditor.RemoveAtRemovesOne | code/pyqt/fmrd_setup.py:250-251 | Removing an existing row removes exactly that row (as a multiset) and keeps the others in order. |
| RecordEditor.Editor.constructor | code/pyqt/fmrd_setup.py:65-111 | Sets the model to the dialog's table. Opens on row 0 (or index -1 on an empty table). First and previous are disabled. Next and last are enabled iff there are two or more rows. Save and delete are enabled iff the table has rows. |
| RecordEditor.Editor.SaveCurrent | code/pyqt/fmrd_setup.py:134-142 | Follows the dialog's save mode. It proceeds iff `SaveStep` proceeds, stores the form iff the step submits and the commit succeeds, and reverts the form iff the step aborts with a revert. |
| RecordEditor.Editor.Move | code/pyqt/fmrd_setup.py:144-179 | Moves to the FIRST/PREV/NEXT/LAST/stay destination when it is a row of the table and otherwise stays put. The form shows the destination row and is clean. It states the new state of every button and keeps the button-pairing and cursor invariant. |
| RecordEditor.Editor.Navigate | code/pyqt/fmrd_setup.py:129-179 | On abort, nothing changes but the form, which is reverted and clean. On proceed, it states the new table and then the effect of `Move`: the cursor, a clean reloaded form whenever the destination exists, and every button. |
| RecordEditor.Editor.Add | code/pyqt/fmrd_setup.py:181-230 | After the pre-step (skipped when the table is empty), appends one row with the fresh id and an empty description and shows it with a clean form. It disables next and last, enables save, and enables first, previous and delete when there is more than one row. |
| RecordEditor.Editor.Delete | code/pyqt/fmrd_setup.py:232-262 | Blocked iff a dependent row references the record. Otherwise it is declined, or fails to commit, with nothing changed. Or it removes the current row, moves to the same index clamped to the last row (to no row when the table empties), shows that row with a clean form, and disables delete on an emptied table. |
| RecordEditor.Editor.Close | code/pyqt/fmrd_setup.py:113-127 | On closing, the form is stored iff it is dirty, not a duplicate (where checked), confirmed and committed. Otherwise the table is unchanged. The dialog closes, except that the venue-surface dialog (lines 3698-3710) reverts a duplicate and stays open. |
| Switchboard.RespondFollowsPolicy | code/pyqt/fmrd_switchboard.py:100-221 | Every slot follows the gate table. Unguarded dialogs always open. A guarded dialog opens iff its gate (venue hosts, match criteria, lineups or substitutes) holds, and otherwise its gate's prompt is shown. |
| Switchboard.TargetsAreDistinct | code/pyqt/fmrd_switchboard.py:100-150 | Distinct slots open distinct dialogs, and every setup dialog opens unconditionally. |
| Switchboard.EmptyDatabaseIsGated | code/pyqt/fmrd_switchboard.py:174-221 | With the documented minimums and an empty database, exactly the guarded slots show their prompts. |
| Switchboard.MatchEntryImpliesVenueEntry | code/pyqt/fmrd_switchboard.py:174-186 | Whenever match entry opens, venue entry opens too. |
| Switchboard.OpeningIsMonotone | code/pyqt/fmrd_switchboard.py:174-221 | With the same failing queries and minimums, appending rows to the competition, team, manager, referee, lineup or position table never turns an opening slot into one that shows a prompt. |

## Left out

- Qt widgets, SQL text and the message boxes are not modelled. A prompt's answer is a boolean input, and each prompt shown is implied by the branch taken.
- `CheckDuplicateRecords`, `CountChildRecords`, `DeletionErrorPrompt` and the `MsgPrompts` functions live in modules that are not part of this model. The duplicate check is an input. The child-record count is modelled from its call sites as a count of referencing rows over the declared dependent tables.
- The values of `Constants` (the `MIN_*` minimums and the `Min*ID` ids) are not part of this model. They are parameters. `DocumentedMinimums` takes its values from the source comments.
- CheckTables' results are booleans where the source returns 1 or 0. `CheckMinimumLineups` always issues its three queries; the model evaluates only what the result depends on.
- The goalkeeper queries read the `positions_list` view. The model reads a position catalogue that stands for that view.
- A query whose `next()` finds no row in the per-team counts gives 0 (modelled). When `SELECT MAX(id)` returns no row in `addRecord`, the source uses an unbound id variable; the model always has a row, because `MAX` over the editor's own rows is used.
- RecordEditor.Editor.Add: the new row holds its id as soon as it is inserted, whereas in the source the id sits in the form until it is submitted.
- RecordEditor.Editor.Delete: `removeRow` followed by a failing `submitAll` is modelled as leaving the table unchanged; pending-removal state of the Qt model is not modelled.
- The positions dialog edits two combo-box columns (field and flank) and compares both in `isDirty`. The model folds them into the one description column the other dialogs have.
- Qt's handling of indices outside the table is modelled as "nothing happens": `setCurrentIndex` keeps both the mapper's index and the form, and `removeRow` and `submit` change nothing. After a deletion the first and previous buttons keep their state, so they can be enabled on row 0, and PREV then asks for row -1. The model, like the mapper, stays on row 0.
- The model does not follow Qt's re-reading of the table after a submit, which can leave the mapper without a current index until the next `setCurrentIndex`. Only the deletion of the current row is modelled as leaving the mapper without a row until it is moved.
- The record editors for the other setup dialogs are not separate classes: `Config` selects each dialog's table, dependent tables, save mode and closing behaviour. Dialog-specific widget enabling and focus are not modelled.
- The switchboard opens dialogs by lower-case names (`cardSetupDlg`) that `fmrd_setup.py` does not define under those names; the model maps each slot to the dialog it is evidently meant to open. The entry dialogs (`compEntryDlg` and the rest) are not part of this model.
- Window centering in the switchboard's constructor and the exit slot are not modelled (screen geometry and process exit).
- The venue-surface dialog's `addRecord` computes a non-empty table's new id from the undefined name `maxRoundID` (`fmrd_setup.py` line 3786), which would raise a name error at run time. The model uses the same max + 1 rule for every dialog instead.
