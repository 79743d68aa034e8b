/** The record editor shared by the setup dialogs of fmrd_setup.py.

    Every setup dialog shows one row of one catalog table in a form, with first,
    previous, next, last, save, add and delete buttons.  The dialogs differ only in
    their table, their dependent tables and in how they handle an edited row before
    leaving it; `Editor` is that logic once, configured per entity by `Config`.

    The database's answers the dialogs consult but do not compute (the duplicate
    check, the user's answer to a prompt, whether a commit succeeds) are inputs of
    the operations; the child-record guard is `ChildGuard.CountChildRecords`. */
module RecordEditor {
  import opened ChildGuard

  /** A row of a catalog table: its id and its description. */
  datatype Record = Record(id: int, desc: string)

  /** What the form shows: the record id and the description being edited. */
  datatype Form = Form(id: int, desc: string)

  /** The enabled state of the six buttons. */
  datatype Buttons = Buttons(first: bool, prev: bool, next: bool, last: bool, save: bool, delete: bool)

  /** Where `saveRecord` moves after saving: FIRST, PREV, NEXT, LAST or NULL (stay). */
  datatype Direction = First | Prev | Next | Last | Stay

  /** How a dialog treats an edited row before it moves away from it or adds one. */
  datatype SaveMode =
    | Prompted           // duplicate check, then a save-or-discard prompt; discarding moves on
    | Direct             // duplicate check, then save without asking
    | DirectStrictAdd    // as Direct, and adding stops when saving the edited row fails
    | PromptedUnchecked  // no duplicate check; discarding reverts the form and stays

  predicate ChecksDuplicates(mode: SaveMode) {
    mode != PromptedUnchecked
  }

  predicate AsksToSave(mode: SaveMode) {
    mode == Prompted || mode == PromptedUnchecked
  }

  /** The setup dialogs. */
  datatype Entity =
    | Cards | Fouls | Groups | Matchdays | GroupRounds | KnockoutRounds | Phases
    | PenaltyOutcomes | GoalEvents | GoalStrikes | FieldPositions | FlankPositions
    | Positions | Countries | Confederations | TimeZones | VenueSurfaces | Rounds | Weather

  /** A dialog's table, the dependent tables whose rows block a deletion, the column
      they reference the record by, the dialog's save mode, and whether closing on a
      duplicate reverts the form and keeps the dialog open. */
  datatype EntityConfig =
    EntityConfig(table: string, childTables: seq<string>, keyField: string, mode: SaveMode, keepsDuplicateOpen: bool)

  function Config(e: Entity): EntityConfig {
    match e
    case Cards => EntityConfig("tbl_cards", ["tbl_offenses"], "card_id", DirectStrictAdd, false)
    case Fouls => EntityConfig("tbl_fouls", ["tbl_penalties", "tbl_fouls"], "foul_id", Prompted, false)
    case Groups => EntityConfig("tbl_groups", ["tbl_groupmatches"], "group_id", Prompted, false)
    case Matchdays => EntityConfig("tbl_matchdays", ["tbl_knockoutmatches"], "knockout_id", Prompted, false)
    case GroupRounds => EntityConfig("tbl_grouprounds", ["tbl_groupmatches"], "grpround_id", Prompted, false)
    case KnockoutRounds => EntityConfig("tbl_knockoutrounds", ["tbl_knockoutmatches"], "koround_id", Prompted, false)
    case Phases => EntityConfig("tbl_phases", ["tbl_matches"], "phase_id", Prompted, false)
    case PenaltyOutcomes =>
      EntityConfig("tbl_penoutcomes", ["tbl_penalties", "tbl_penaltyshootouts"], "penoutcome_id", Prompted, false)
    case GoalEvents => EntityConfig("tbl_goalevents", ["tbl_goals"], "gtetype_id", Prompted, false)
    case GoalStrikes => EntityConfig("tbl_goalstrikes", ["tbl_goals"], "gtstype_id", Prompted, false)
    case FieldPositions => EntityConfig("tbl_fieldnames", ["tbl_positions"], "posfield_id", Prompted, false)
    case FlankPositions => EntityConfig("tbl_flanknames", ["tbl_positions"], "posflank_id", Prompted, false)
    case Positions => EntityConfig("tbl_positions", ["tbl_players", "tbl_lineups"], "position_id", PromptedUnchecked, false)
    case Countries =>
      EntityConfig("tbl_countries", ["tbl_players", "tbl_referees", "tbl_managers", "tbl_venues"], "country_id", Prompted, false)
    case Confederations => EntityConfig("tbl_confederations", ["tbl_countries"], "confed_id", Direct, false)
    case TimeZones => EntityConfig("tbl_timezones", ["tbl_venues"], "timezone_id", Prompted, false)
    case VenueSurfaces => EntityConfig("tbl_venuesurfaces", ["tbl_venuehistory"], "venuesurface_id", Prompted, true)
    case Rounds =>
      EntityConfig("tbl_rounds", ["tbl_leaguematches", "tbl_groupmatches", "tbl_penaltyshootouts"], "round_id", Prompted, false)
    case Weather =>
      EntityConfig("tbl_weather", ["tbl_weatherkickoff", "tbl_weatherhalftime", "tbl_weatherfulltime"], "weather_id", Prompted, false)
  }

  /** Only the positions dialog skips the duplicate check, only the card and
      confederation dialogs save without asking, only the venue-surface dialog stays
      open when closed on a duplicate, and every dialog guards its deletions with at
      least one dependent table. */
  lemma ConfigModes(e: Entity)
    ensures !ChecksDuplicates(Config(e).mode) <==> e == Positions
    ensures !AsksToSave(Config(e).mode) <==> e == Cards || e == Confederations
    ensures Config(e).mode == DirectStrictAdd <==> e == Cards
    ensures Config(e).keepsDuplicateOpen <==> e == VenueSurfaces
    ensures |Config(e).childTables| >= 1
  {
  }

  function Min(a: int, b: int): int {
    if a <= b then a else b
  }

  /** The row `saveRecord(where)` hands to the mapper, from the current row and the
      row count. */
  function Destination(where: Direction, row: int, count: int): int {
    match where
    case First => 0
    case Prev => row - 1
    case Next => if row + 1 >= count - 1 then count - 1 else row + 1
    case Last => count - 1
    case Stay => row
  }

  /** The mapper's current index after `setCurrentIndex(target)`: an index outside the
      table is ignored and the mapper stays where it was. */
  function MovedTo(row: int, target: int, count: int): int {
    if 0 <= target < count then target else row
  }

  /** The stored description of a row; an index outside the table reads as empty. */
  function DescAt(rows: seq<Record>, row: int): string {
    if 0 <= row < |rows| then rows[row].desc else ""
  }

  /** `isDirty`: a row one past the end is new; otherwise the form is dirty when its
      description differs from the stored one. */
  function IsDirty(rows: seq<Record>, row: int, text: string): bool {
    if row == |rows| then true else text != DescAt(rows, row)
  }

  /** The form after the mapper moves to `row`: that row's values when the row
      exists, the form as it was otherwise. */
  function LoadForm(rows: seq<Record>, row: int, form: Form): Form {
    if 0 <= row < |rows| then Form(rows[row].id, rows[row].desc) else form
  }

  /** The table after the form is submitted into `row`. */
  function Stored(rows: seq<Record>, row: int, form: Form): seq<Record> {
    if 0 <= row < |rows| then rows[row := Record(form.id, form.desc)] else rows
  }

  /** The table after `removeRow(row)`; an index outside the table removes nothing. */
  function RemoveAt(rows: seq<Record>, row: int): seq<Record> {
    if 0 <= row < |rows| then rows[..row] + rows[row + 1..] else rows
  }

  function Ids(rows: seq<Record>): seq<int> {
    seq(|rows|, i requires 0 <= i < |rows| => rows[i].id)
  }

  /** `SELECT MAX(id)`: the largest id, or 0 (a NULL read as a number) for an empty table. */
  function MaxId(ids: seq<int>): (m: int)
    ensures ids == [] ==> m == 0
    ensures ids != [] ==> m in ids
    ensures forall i :: 0 <= i < |ids| ==> ids[i] <= m
  {
    if ids == [] then 0
    else if |ids| == 1 then ids[0]
    else
      var rest := MaxId(ids[1..]);
      assert forall i :: 1 <= i < |ids| ==> ids[i] == ids[1..][i - 1];
      if ids[0] >= rest then ids[0] else rest
  }

  /** The id of a new record: one more than the largest id, or the entity's minimum
      id when the largest id reads as 0. */
  function NewId(ids: seq<int>, minId: int): int {
    var m := MaxId(ids);
    if m == 0 then minId else m + 1
  }

  /** What happens to an edited row before the dialog moves away from it. */
  datatype Step =
    | Abort(revert: bool)    // stay where we are; `revert` restores the form from the table
    | Proceed(submit: bool)  // go on; `submit` tries to store the form first

  /** The pre-move step of `saveRecord` (adding == false) and `addRecord` (adding == true). */
  function SaveStep(mode: SaveMode, adding: bool, dirty: bool, duplicate: bool, confirmSave: bool, commitOk: bool): Step {
    if !dirty then Proceed(false)
    else if ChecksDuplicates(mode) && duplicate then Abort(true)
    else if AsksToSave(mode) && !confirmSave then
      (if mode == PromptedUnchecked then Abort(true) else Proceed(false))
    else if adding && mode == DirectStrictAdd && !commitOk then Abort(false)
    else Proceed(true)
  }

  /** The save policy: a clean row is left without saving; a row is stored only when
      it is dirty, not a duplicate (where duplicates are checked) and confirmed (where
      the dialog asks); a duplicate always reverts the form and stays. */
  lemma SaveStepPolicy(mode: SaveMode, adding: bool, dirty: bool, duplicate: bool, confirmSave: bool, commitOk: bool)
    ensures var step := SaveStep(mode, adding, dirty, duplicate, confirmSave, commitOk);
      && (!dirty ==> step == Proceed(false))
      && (step == Proceed(true) ==> dirty && (ChecksDuplicates(mode) ==> !duplicate) && (AsksToSave(mode) ==> confirmSave))
      && (dirty && ChecksDuplicates(mode) && duplicate ==> step == Abort(true))
      && (step == Abort(false) ==> adding && mode == DirectStrictAdd && !commitOk)
      && (dirty && mode == PromptedUnchecked && !confirmSave ==> step == Abort(true))
      && (dirty && mode == Prompted && !duplicate && !confirmSave ==> step == Proceed(false))
  {
  }

  /** Loading a row makes the form clean, and so does storing the form into it; storing
      changes that row only. */
  lemma LoadAndStoreAreClean(rows: seq<Record>, row: int, form: Form)
    requires 0 <= row < |rows|
    ensures !IsDirty(rows, row, LoadForm(rows, row, form).desc)
    ensures |Stored(rows, row, form)| == |rows| && !IsDirty(Stored(rows, row, form), row, form.desc)
    ensures forall i :: 0 <= i < |rows| && i != row ==> Stored(rows, row, form)[i] == rows[i]
  {
  }

  /** Removing an existing row removes exactly that row and keeps the order of the others. */
  lemma RemoveAtRemovesOne(rows: seq<Record>, row: int)
    requires 0 <= row < |rows|
    ensures |RemoveAt(rows, row)| == |rows| - 1
    ensures multiset(RemoveAt(rows, row)) + multiset{rows[row]} == multiset(rows)
    ensures forall i :: 0 <= i < row ==> RemoveAt(rows, row)[i] == rows[i]
    ensures forall i :: row <= i < |rows| - 1 ==> RemoveAt(rows, row)[i] == rows[i + 1]
  {
    assert rows == rows[..row] + [rows[row]] + rows[row + 1..];
  }

  /** A new id never collides with an existing one when the minimum id is positive, and
      exceeds every existing id whenever the largest one is not 0. */
  lemma NewIdIsFresh(ids: seq<int>, minId: int)
    ensures minId > 0 ==> NewId(ids, minId) !in ids
    ensures MaxId(ids) != 0 ==> forall i :: 0 <= i < |ids| ==> ids[i] < NewId(ids, minId)
    ensures ids == [] ==> NewId(ids, minId) == minId
  {
  }

  /** What `deleteRecord` did. */
  datatype DeleteOutcome = Blocked | Declined | CommitFailed | Deleted

  /** One setup dialog: the table it edits, the row the form shows and the buttons. */
  class Editor {
    /** The name of the table the dialog's model is set to. */
    const tableName: string
    const mode: SaveMode
    const minId: int
    const childTables: seq<string>
    const keyField: string
    const keepsDuplicateOpen: bool

    /** The rows of the dialog's table, in id order. */
    var rows: seq<Record>
    /** The mapper's current index: a row of the table, or -1 when the table is empty. */
    var cursor: int
    var form: Form
    var buttons: Buttons

    /** First and previous are switched together, as are next and last; delete is
        enabled only when the table has a row; the mapper is on a row of the table
        whenever the table has one, and on none otherwise. */
    ghost predicate Valid()
      reads this
    {
      && buttons.first == buttons.prev
      && buttons.next == buttons.last
      && (buttons.delete ==> |rows| > 0)
      && -1 <= cursor < |rows|
      && (cursor == -1 <==> |rows| == 0)
    }

    /** The pre-move step for the current state. */
    ghost function StepFor(adding: bool, duplicate: bool, confirmSave: bool, commitOk: bool): Step
      reads this
    {
      SaveStep(mode, adding, IsDirty(rows, cursor, form.desc), duplicate, confirmSave, commitOk)
    }

    /** `addRecord` checks the edited row only when the mapper has a current row. */
    ghost function AddStep(duplicate: bool, confirmSave: bool, commitOk: bool): Step
      reads this
    {
      if cursor != -1 then StepFor(true, duplicate, confirmSave, commitOk) else Proceed(false)
    }

    /** The table once a step has been taken. */
    ghost function RowsAfter(step: Step, commitOk: bool): seq<Record>
      reads this
    {
      if step == Proceed(true) && commitOk then Stored(rows, cursor, form) else rows
    }

    /** `__init__`: open the dialog on the first row of `table`. */
    constructor (entity: Entity, minId: int, table: seq<Record>)
      ensures Valid()
      ensures tableName == Config(entity).table
      ensures mode == Config(entity).mode && childTables == Config(entity).childTables
      ensures keyField == Config(entity).keyField && keepsDuplicateOpen == Config(entity).keepsDuplicateOpen
      ensures this.minId == minId
      ensures rows == table
      ensures |table| > 0 ==> cursor == 0 && form == Form(table[0].id, table[0].desc)
      ensures |table| == 0 ==> cursor == -1
      ensures !buttons.first && !buttons.prev
      ensures buttons.next == buttons.last == (|table| >= 2)
      ensures buttons.save == buttons.delete == (|table| > 0)
    {
      var config := Config(entity);
      tableName := config.table;
      mode, childTables, keyField := config.mode, config.childTables, config.keyField;
      keepsDuplicateOpen := config.keepsDuplicateOpen;
      this.minId := minId;
      rows := table;
      var enabled := Buttons(true, true, true, true, true, true);
      // mapper.toFirst(): an empty table leaves the mapper without a current row
      if |table| > 0 {
        cursor := 0;
        form := Form(table[0].id, table[0].desc);
      } else {
        cursor := -1;
        form := Form(0, "");
      }
      if |table| == 0 {
        enabled := enabled.(save := false, delete := false);
      }
      enabled := enabled.(first := false, prev := false);
      if |table| < 2 {
        enabled := enabled.(next := false, last := false);
      }
      buttons := enabled;
    }

    /** `mapper.setCurrentIndex(row)`: moves to and loads an existing row, and ignores
        an index outside the table. */
    method SetCurrentIndex(row: int)
      modifies this`cursor, this`form
      ensures cursor == MovedTo(old(cursor), row, |rows|) && form == LoadForm(rows, row, old(form))
    {
      if 0 <= row < |rows| {
        cursor := row;
        form := Form(rows[row].id, rows[row].desc);
      }
    }

    /** `mapper.submit()`: store the form into the current row when the commit succeeds. */
    method Submit(commitOk: bool)
      modifies this`rows
      ensures rows == if commitOk then Stored(old(rows), cursor, form) else old(rows)
    {
      if commitOk && 0 <= cursor < |rows| {
        rows := rows[cursor := Record(form.id, form.desc)];
      }
    }

    /** `mapper.revert()`: restore the form from the current row. */
    method Revert()
      modifies this`form
      ensures form == LoadForm(rows, cursor, old(form))
    {
      if 0 <= cursor < |rows| {
        form := Form(rows[cursor].id, rows[cursor].desc);
      }
    }

    /** The handling of an edited row that opens `saveRecord` and `addRecord`;
        `proceed` is false where the source returns. */
    method SaveCurrent(adding: bool, duplicate: bool, confirmSave: bool, commitOk: bool) returns (proceed: bool)
      modifies this`rows, this`form
      ensures var step := old(StepFor(adding, duplicate, confirmSave, commitOk));
        && proceed == step.Proceed?
        && rows == old(RowsAfter(step, commitOk))
        && form == (if step == Abort(true) then LoadForm(rows, cursor, old(form)) else old(form))
    {
      proceed := true;
      if IsDirty(rows, cursor, form.desc) {
        match mode
        case Prompted =>
          if !duplicate {
            if confirmSave {
              Submit(commitOk);
            }
          } else {
            Revert();
            proceed := false;
          }
        case Direct =>
          if !duplicate {
            Submit(commitOk);
          } else {
            Revert();
            proceed := false;
          }
        case DirectStrictAdd =>
          if !duplicate {
            Submit(commitOk);
            if adding && !commitOk {
              proceed := false;
            }
          } else {
            Revert();
            proceed := false;
          }
        case PromptedUnchecked =>
          if confirmSave {
            Submit(commitOk);
          } else {
            Revert();
            proceed := false;
          }
      }
    }

    /** The move that ends `saveRecord(where)`: pick the destination row, switch the
        navigation buttons and hand the row to the mapper. */
    method Move(where: Direction)
      requires Valid()
      modifies this`cursor, this`form, this`buttons
      ensures Valid()
      ensures var target := Destination(where, old(cursor), |rows|);
        && cursor == MovedTo(old(cursor), target, |rows|)
        && form == LoadForm(rows, target, old(form))
        && (0 <= target < |rows| ==> !IsDirty(rows, cursor, form.desc))
        && buttons.save == old(buttons.save)
        && buttons.delete == (old(buttons.delete) || |rows| > 0)
        && (where == First ==> !buttons.first && !buttons.prev && buttons.next && buttons.last)
        && (where == Prev ==>
              && buttons.next && buttons.last
              && buttons.first == buttons.prev == (old(cursor) != 1 && old(buttons.first)))
        && (where == Next ==>
              && buttons.first && buttons.prev
              && buttons.next == buttons.last == (old(cursor) + 1 < |rows| - 1 && old(buttons.next)))
        && (where == Last ==> !buttons.next && !buttons.last && buttons.first && buttons.prev)
        && (where == Stay ==> buttons == old(buttons).(delete := buttons.delete))
    {
      var row := cursor;
      match where {
      case First =>
        buttons := buttons.(first := false, prev := false);
        if !buttons.next {
          buttons := buttons.(next := true, last := true);
        }
        row := 0;
      case Prev =>
        row := row - 1;
        if !buttons.next {
          buttons := buttons.(next := true, last := true);
        }
        if row == 0 {
          buttons := buttons.(first := false, prev := false);
        }
      case Next =>
        row := row + 1;
        if !buttons.prev {
          buttons := buttons.(prev := true, first := true);
        }
        if row >= |rows| - 1 {
          buttons := buttons.(next := false, last := false);
          row := |rows| - 1;
        }
      case Last =>
        buttons := buttons.(next := false, last := false);
        if !buttons.prev {
          buttons := buttons.(prev := true, first := true);
        }
        row := |rows| - 1;
      case Stay =>
      }
      SetCurrentIndex(row);
      if |rows| > 0 {
        buttons := buttons.(delete := true);
      }
    }

    /** `saveRecord(where)`: handle the edited row, then move and update the buttons. */
    method Navigate(where: Direction, duplicate: bool, confirmSave: bool, commitOk: bool)
      requires Valid()
      modifies this
      ensures Valid()
      ensures old(StepFor(false, duplicate, confirmSave, commitOk)).Abort? ==>
        && rows == old(rows) && cursor == old(cursor) && buttons == old(buttons)
        && form == old(LoadForm(rows, cursor, form))
        && (|rows| > 0 ==> !IsDirty(rows, cursor, form.desc))
      ensures old(StepFor(false, duplicate, confirmSave, commitOk)).Proceed? ==>
        var target := Destination(where, old(cursor), |rows|);
        && rows == old(RowsAfter(StepFor(false, duplicate, confirmSave, commitOk), commitOk))
        && cursor == MovedTo(old(cursor), target, |rows|)
        && form == LoadForm(rows, target, old(form))
        && (0 <= target < |rows| ==> !IsDirty(rows, cursor, form.desc))
        && buttons.save == old(buttons.save)
        && buttons.delete == (old(buttons.delete) || |rows| > 0)
        && (where == First ==> !buttons.first && !buttons.prev && buttons.next && buttons.last)
        && (where == Prev ==>
              && buttons.next && buttons.last
              && buttons.first == buttons.prev == (old(cursor) != 1 && old(buttons.first)))
        && (where == Next ==>
              && buttons.first && buttons.prev
              && buttons.next == buttons.last == (old(cursor) + 1 < |rows| - 1 && old(buttons.next)))
        && (where == Last ==> !buttons.next && !buttons.last && buttons.first && buttons.prev)
        && (where == Stay ==> buttons == old(buttons).(delete := buttons.delete))
    {
      var proceed := SaveCurrent(false, duplicate, confirmSave, commitOk);
      if proceed {
        Move(where);
      }
    }

    /** `addRecord`: handle the edited row, then append a new row with a fresh id and
        show it. */
    method Add(duplicate: bool, confirmSave: bool, commitOk: bool)
      requires Valid()
      modifies this
      ensures Valid()
      ensures old(AddStep(duplicate, confirmSave, commitOk)).Abort? ==>
        && rows == old(rows) && cursor == old(cursor) && buttons == old(buttons)
        && form == (if old(AddStep(duplicate, confirmSave, commitOk)).revert
                    then old(LoadForm(rows, cursor, form)) else old(form))
      ensures old(AddStep(duplicate, confirmSave, commitOk)).Proceed? ==>
        var before := old(RowsAfter(AddStep(duplicate, confirmSave, commitOk), commitOk));
        var id := NewId(Ids(before), minId);
        && rows == before + [Record(id, "")]
        && cursor == |before| && form == Form(id, "") && !IsDirty(rows, cursor, form.desc)
        && !buttons.next && !buttons.last && buttons.save
        && buttons.first == buttons.prev == (|rows| > 1 || old(buttons.first))
        && buttons.delete == (|rows| > 1 || old(buttons.delete))
    {
      if cursor != -1 {
        var proceed := SaveCurrent(true, duplicate, confirmSave, commitOk);
        if !proceed {
          return;
        }
      }
      var row := |rows|;
      var id := NewId(Ids(rows), minId);
      // model.insertRow(row), then the id is written into the form
      rows := rows + [Record(id, "")];
      SetCurrentIndex(row);
      form := form.(id := id);
      buttons := buttons.(next := false, last := false);
      if |rows| > 1 {
        buttons := buttons.(prev := true, first := true, delete := true);
      }
      if !buttons.save {
        buttons := buttons.(save := true);
      }
    }

    /** `deleteRecord`: refuse when a dependent table references the record shown,
        otherwise remove the current row once the user confirms and the commit succeeds. */
    method Delete(children: ChildStore, confirmDelete: bool, commitOk: bool) returns (outcome: DeleteOutcome)
      requires Valid()
      modifies this
      ensures Valid()
      ensures outcome == Blocked <==> Referenced(children, childTables, keyField, old(form).id)
      ensures outcome == Declined <==> outcome != Blocked && !confirmDelete
      ensures outcome == CommitFailed <==> outcome != Blocked && confirmDelete && !commitOk
      ensures outcome != Deleted ==>
        rows == old(rows) && cursor == old(cursor) && form == old(form) && buttons == old(buttons)
      ensures outcome == Deleted ==>
        && rows == RemoveAt(old(rows), old(cursor))
        && cursor == Min(old(cursor), |rows| - 1)
        && form == LoadForm(rows, cursor, old(form))
        && (|rows| > 0 ==> !IsDirty(rows, cursor, form.desc))
        && buttons == old(buttons).(delete := old(buttons.delete) && |rows| > 0)
    {
      ChildRecordsIffReferenced(children, childTables, keyField, form.id);
      if CountChildRecords(children, childTables, keyField, form.id) == 0 {
        if !confirmDelete {
          return Declined;
        }
        if !commitOk {
          // removeRow followed by a failing submitAll leaves the table as it was
          return CommitFailed;
        }
        var row := cursor;
        rows := RemoveAt(rows, row);
        // the mapper's row is gone, so it has no current row until it is moved
        cursor := -1;
        if row + 1 >= |rows| {
          row := |rows| - 1;
        }
        SetCurrentIndex(row);
        if |rows| == 0 {
          buttons := buttons.(delete := false);
        }
        outcome := Deleted;
      } else {
        outcome := Blocked;
      }
    }

    /** `accept`: offer to save an edited row, then close the dialog.  The venue-surface
        dialog instead reverts a duplicate and stays open; `closed` says whether the
        dialog closes. */
    method Close(duplicate: bool, confirmSave: bool, commitOk: bool) returns (closed: bool)
      requires Valid()
      modifies this`rows, this`form
      ensures Valid()
      ensures var dirty := IsDirty(old(rows), cursor, old(form).desc);
        var isDuplicate := dirty && ChecksDuplicates(mode) && duplicate;
        && closed == !(isDuplicate && keepsDuplicateOpen)
        && rows == (if dirty && !isDuplicate && confirmSave && commitOk then Stored(old(rows), cursor, old(form)) else old(rows))
        && form == (if closed then old(form) else LoadForm(rows, cursor, old(form)))
    {
      closed := true;
      if IsDirty(rows, cursor, form.desc) {
        if !ChecksDuplicates(mode) || !duplicate {
          if confirmSave {
            Submit(commitOk);
          }
        } else if keepsDuplicateOpen {
          Revert();
          closed := false;
        }
      }
    }
  }
}
