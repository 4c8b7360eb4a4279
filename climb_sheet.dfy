/** Writing one wall's climbs to the gym's sheet for the wall's category:
    resolve the sheet, then for each climb append a row and colour one cell
    of the row it landed on, then sort the sheet once. The spreadsheet
    backend is an oracle: its answers to the calls are parameters, and the
    calls made are returned as a log of operations. */
module ClimbSheet {
  import opened Wrappers
  import opened Strings
  import opened Types
  import opened Sheets
  import SheetUtil

  /** The two column settings the sync reads from the configuration. */
  datatype Config = Config(climbColorColumnIdx: int, dateColumnIdx: int)

  // This file keeps its own copies of the three naming functions, as the
  // program does; `CopiesAgree` shows they are the shared ones.

  function FormatSheetName(gymLocationName: string, pluralHumanItemType: string): string {
    gymLocationName + " - " + pluralHumanItemType
  }

  function WallCategoryToPluralHumanType(wallCategory: string): Result<string> {
    if wallCategory == "gym_bouldering" then Ok("Boulderit")
    else if wallCategory == "gym_sportclimbing" then Ok("Reitit")
    else Err(Panic("unknown wall category"))
  }

  function ParseLocationFromGymName(gymName: string): Result<string> {
    var pieces := Split(gymName, ' ');
    if |pieces| > 1 then Ok(pieces[1]) else Err(Panic("gym name has no second word"))
  }

  /** The copies here compute exactly what the shared naming functions do. */
  lemma CopiesAgree(location: string, noun: string, category: string, gymName: string)
    ensures FormatSheetName(location, noun) == SheetUtil.FormatSheetName(location, noun)
    ensures WallCategoryToPluralHumanType(category) == SheetUtil.WallCategoryToPluralHumanType(category)
    ensures ParseLocationFromGymName(gymName) == SheetUtil.ParseLocationFromGymName(gymName)
  {
  }

  /** `get_sheet_for_gym_name_and_wall_category`: the sheet's title and its
      numeric id. The sheet list must be present, the name must have a second
      word, the category must be known and a sheet must carry the title;
      otherwise the program panics. */
  function GetSheetForGymNameAndWallCategory(spreadsheet: Spreadsheet, gymName: string, wallCategory: string)
    : (r: Result<(string, int)>)
    ensures r.Ok? <==>
              && spreadsheet.sheets.Some?
              && ParseLocationFromGymName(gymName).Ok?
              && WallCategoryToPluralHumanType(wallCategory).Ok?
              && GetSheetId(spreadsheet, FormatSheetName(ParseLocationFromGymName(gymName).value,
                                                         WallCategoryToPluralHumanType(wallCategory).value)).Ok?
    ensures r.Ok? ==>
              && r.value.0 == SheetUtil.FormatSheetName(SheetUtil.ParseLocationFromGymName(gymName).value,
                                                        SheetUtil.WallCategoryToPluralHumanType(wallCategory).value)
              && GetSheetId(spreadsheet, r.value.0) == Ok(r.value.1)
  {
    match spreadsheet.sheets
    case None => Err(Panic("spreadsheet without sheets"))
    case Some(sheets) =>
      var location :- ParseLocationFromGymName(gymName);
      var noun :- WallCategoryToPluralHumanType(wallCategory);
      var sheetName := FormatSheetName(location, noun);
      var id :- FindSheetId(sheets, sheetName);
      CopiesAgree(location, noun, wallCategory, gymName);
      Ok((sheetName, id))
  }

  // ---------------------------------------------------------------------
  // The sync effects
  // ---------------------------------------------------------------------

  /** A call to the spreadsheet backend. The appended row's layout
      (`to_sheet_row`) is not part of this model, so an append names the climb. */
  datatype SheetOp =
    | AppendRow(spreadsheetId: string, sheetName: string, climb: Climb)
    | BatchUpdate(spreadsheetId: string, request: Request)

  /** The backend's answers: one per append and per colour fill, in climb
      order, and one for the sort. */
  datatype Replies = Replies(
    appends: seq<Result<AppendValuesResponse>>,
    fills: seq<Result<()>>,
    sort: Result<()>)

  /** The resolved sheet the appends go to. */
  datatype Target = Target(spreadsheetId: string, sheetName: string, sheetIdNum: int)

  /** The outcome of a run of calls and the calls made, in order. */
  datatype Effects = Effects(result: Result<()>, ops: seq<SheetOp>)

  /** The colour fill that follows an append: at the landed row of the
      append's answer, in the configured colour column, with the climb's colour. */
  predicate IsFillFor(op: SheetOp, target: Target, config: Config, climb: Climb, appended: Result<AppendValuesResponse>) {
    && CanFill(target, config, climb, appended)
    && op == BatchUpdate(target.spreadsheetId, FillRequest(target, config, climb, appended))
  }

  /** The append answered with a landed row and the climb's colour decodes. */
  predicate CanFill(target: Target, config: Config, climb: Climb, appended: Result<AppendValuesResponse>) {
    && appended.Ok?
    && GetUpdatedRow(appended.value).Ok?
    && SetCellBackgroundColorRequest(target.sheetIdNum, climb.color,
                                     GetUpdatedRow(appended.value).value, config.climbColorColumnIdx).Ok?
  }

  function FillRequest(target: Target, config: Config, climb: Climb, appended: Result<AppendValuesResponse>): Request
    requires CanFill(target, config, climb, appended)
  {
    SetCellBackgroundColorRequest(target.sheetIdNum, climb.color,
                                  GetUpdatedRow(appended.value).value, config.climbColorColumnIdx).value
  }

  /** The fill can be made exactly when the append landed on a row, the
      climb's colour decodes and the configured colour column is below
      `i32::MAX`. The landed row always fits, so its `row + 1` cannot overflow. */
  lemma CanFillExactly(target: Target, config: Config, climb: Climb, appended: Result<AppendValuesResponse>)
    ensures CanFill(target, config, climb, appended) <==>
              && appended.Ok? && GetUpdatedRow(appended.value).Ok?
              && ColorFromHex(climb.color).Ok? && config.climbColorColumnIdx < I32Max
  {
  }

  /** `append_climb_to_sheet`: append the row; read the landed row out of the
      answer (a panic when it is missing); colour the climb's cell there (a
      panic before any call when the colour does not decode). The settling
      delay between the two calls is not modelled. */
  function AppendClimbToSheet(target: Target, config: Config, climb: Climb,
                              appended: Result<AppendValuesResponse>, filled: Result<()>): (e: Effects)
    ensures |e.ops| >= 1 && e.ops[0] == AppendRow(target.spreadsheetId, target.sheetName, climb)
    ensures |e.ops| <= 2 && (|e.ops| == 2 <==> CanFill(target, config, climb, appended))
    ensures |e.ops| == 2 ==> e.result == filled && IsFillFor(e.ops[1], target, config, climb, appended)
    ensures |e.ops| == 1 ==> e.result.Err? && (appended.Err? ==> e.result == Err(appended.error))
  {
    var append := AppendRow(target.spreadsheetId, target.sheetName, climb);
    match appended
    case Err(err) => Effects(Err(err), [append])
    case Ok(response) =>
      match GetUpdatedRow(response)
      case Err(err) => Effects(Err(err), [append])
      case Ok(row) =>
        match SetCellBackgroundColorRequest(target.sheetIdNum, climb.color, row, config.climbColorColumnIdx)
        case Err(err) => Effects(Err(err), [append])
        case Ok(request) => Effects(filled, [append, BatchUpdate(target.spreadsheetId, request)])
  }

  /** A climb's step is well shaped: it makes the append and at most one
      more call, and fails when it made only the append. */
  predicate WellShaped(step: Effects) {
    1 <= |step.ops| <= 2 && (|step.ops| == 1 ==> step.result.Err?)
  }

  /** The steps from index `i` on, run in turn, stopping at the first that
      fails; the `?` after each call in the loop. */
  function RunSteps(steps: seq<Effects>, i: nat): Effects
    requires i <= |steps|
    decreases |steps| - i
  {
    if i == |steps| then Effects(Ok(()), [])
    else if steps[i].result.Err? then steps[i]
    else
      var rest := RunSteps(steps, i + 1);
      Effects(rest.result, steps[i].ops + rest.ops)
  }

  /** The effects each climb's step would have, in climb order. */
  function Steps(target: Target, config: Config, climbs: seq<Climb>, replies: Replies): (steps: seq<Effects>)
    requires |climbs| <= |replies.appends| && |climbs| <= |replies.fills|
    ensures |steps| == |climbs|
  {
    seq(|climbs|, k requires 0 <= k < |climbs| =>
      AppendClimbToSheet(target, config, climbs[k], replies.appends[k], replies.fills[k]))
  }

  /** Step `k` is climb `k`'s append with the backend's `k`-th answers. */
  lemma StepAt(target: Target, config: Config, climbs: seq<Climb>, replies: Replies, k: nat)
    requires k < |climbs| <= |replies.appends| && |climbs| <= |replies.fills|
    ensures Steps(target, config, climbs, replies)[k]
            == AppendClimbToSheet(target, config, climbs[k], replies.appends[k], replies.fills[k])
  {
  }

  /** `add_wall_to_sheet` as a function of its inputs and the backend's answers. */
  function AddWall(config: Config, spreadsheet: Spreadsheet, gym: Gym, wall: Wall, replies: Replies): Effects
    requires |Climbs(wall)| <= |replies.appends| && |Climbs(wall)| <= |replies.fills|
  {
    match spreadsheet.spreadsheetId
    case None => Effects(Err(Panic("spreadsheet without id")), [])
    case Some(spreadsheetId) =>
      match GetSheetForGymNameAndWallCategory(spreadsheet, gym.name, wall.category)
      case Err(err) => Effects(Err(err), [])
      case Ok(sheet) =>
        var target := Target(spreadsheetId, sheet.0, sheet.1);
        var synced := RunSteps(Steps(target, config, Climbs(wall), replies), 0);
        if synced.result.Err? then synced
        else Effects(replies.sort,
                     synced.ops + [BatchUpdate(spreadsheetId, SortSheetByColumnRequest(sheet.1, config.dateColumnIdx))])
  }

  /** `add_wall_to_sheet`: resolve the sheet, run the loop over the wall's
      climbs, then sort. */
  method AddWallToSheet(config: Config, spreadsheet: Spreadsheet, gym: Gym, wall: Wall, replies: Replies)
    returns (r: Result<()>, ops: seq<SheetOp>)
    requires |Climbs(wall)| <= |replies.appends| && |Climbs(wall)| <= |replies.fills|
    ensures Effects(r, ops) == AddWall(config, spreadsheet, gym, wall, replies)
  {
    ops := [];
    if spreadsheet.spreadsheetId.None? {
      return Err(Panic("spreadsheet without id")), ops;
    }
    var spreadsheetId := spreadsheet.spreadsheetId.value;
    var sheet := GetSheetForGymNameAndWallCategory(spreadsheet, gym.name, wall.category);
    if sheet.Err? {
      return Err(sheet.error), ops;
    }
    var sheetName, sheetIdNum := sheet.value.0, sheet.value.1;
    var target := Target(spreadsheetId, sheetName, sheetIdNum);
    r, ops := AppendClimbs(target, config, Climbs(wall), replies);
    if r.Err? {
      return;
    }
    ops := ops + [BatchUpdate(spreadsheetId, SortSheetByColumnRequest(sheetIdNum, config.dateColumnIdx))];
    r := replies.sort;
  }

  /** The loop of `add_wall_to_sheet`: append each climb in turn, returning
      at the first failure. */
  method AppendClimbs(target: Target, config: Config, climbs: seq<Climb>, replies: Replies)
    returns (r: Result<()>, ops: seq<SheetOp>)
    requires |climbs| <= |replies.appends| && |climbs| <= |replies.fills|
    ensures Effects(r, ops) == RunSteps(Steps(target, config, climbs, replies), 0)
  {
    ops := [];
    ghost var steps := Steps(target, config, climbs, replies);
    ghost var whole := RunSteps(steps, 0);
    for i := 0 to |climbs|
      invariant whole.result == RunSteps(steps, i).result && whole.ops == ops + RunSteps(steps, i).ops
    {
      var step := AppendClimbToSheet(target, config, climbs[i], replies.appends[i], replies.fills[i]);
      StepAt(target, config, climbs, replies, i);
      ghost var before := ops;
      ops := ops + step.ops;
      if step.result.Err? {
        return step.result, ops;
      }
      OpsAssociate(before, step.ops, RunSteps(steps, i + 1).ops);
    }
    r := Ok(());
  }

  // ---------------------------------------------------------------------
  // The shape of a run of steps
  // ---------------------------------------------------------------------

  /** A run of well-shaped steps makes at most two calls per step, and
      exactly two per step when it succeeds. */
  lemma {:induction false} RunLength(steps: seq<Effects>, i: nat)
    requires i <= |steps|
    requires forall k :: 0 <= k < |steps| ==> WellShaped(steps[k])
    decreases |steps| - i
    ensures |RunSteps(steps, i).ops| <= 2 * (|steps| - i)
    ensures RunSteps(steps, i).result.Ok? ==> |RunSteps(steps, i).ops| == 2 * (|steps| - i)
  {
    if i < |steps| {
      assert WellShaped(steps[i]);
      RunLength(steps, i + 1);
    }
  }

  /** A run succeeds exactly when every one of its steps does. */
  lemma {:induction false} RunSucceeds(steps: seq<Effects>, i: nat)
    requires i <= |steps|
    decreases |steps| - i
    ensures RunSteps(steps, i).result.Ok? <==> forall k :: i <= k < |steps| ==> steps[k].result.Ok?
  {
    if i < |steps| {
      RunSucceeds(steps, i + 1);
    }
  }

  /** A run that fails ends with its first failing step: the outcome is that
      step's, after the calls of all the steps before it. */
  lemma {:induction false} RunStopsAtFirstFailure(steps: seq<Effects>, i: nat, k: nat)
    requires i <= k < |steps|
    requires forall m :: i <= m < k ==> steps[m].result.Ok?
    requires steps[k].result.Err?
    decreases k - i
    ensures RunSteps(steps, i).result == steps[k].result
    ensures RunSteps(steps, i).ops == Concat(steps, i, k) + steps[k].ops
  {
    if i < k {
      RunStopsAtFirstFailure(steps, i + 1, k);
      OpsAssociate(steps[i].ops, Concat(steps, i + 1, k), steps[k].ops);
    }
  }

  lemma OpsAssociate(a: seq<SheetOp>, b: seq<SheetOp>, c: seq<SheetOp>)
    ensures (a + b) + c == a + (b + c)
  {
  }

  /** The calls of the steps from `i` up to `k`, one after another. */
  function Concat(steps: seq<Effects>, i: nat, k: nat): seq<SheetOp>
    requires i <= k <= |steps|
    decreases k - i
  {
    if i == k then [] else steps[i].ops + Concat(steps, i + 1, k)
  }

  /** The calls of a run of well-shaped steps by position: calls `2k` and
      `2k + 1` are the first and the second call of step `i + k`. */
  lemma {:induction false} RunCallsAt(steps: seq<Effects>, i: nat, k: nat)
    requires i <= |steps|
    requires forall m :: 0 <= m < |steps| ==> WellShaped(steps[m])
    requires 2 * k < |RunSteps(steps, i).ops|
    decreases k
    ensures i + k < |steps| && WellShaped(steps[i + k])
    ensures RunSteps(steps, i).ops[2 * k] == steps[i + k].ops[0]
    ensures 2 * k + 1 < |RunSteps(steps, i).ops| ==>
              |steps[i + k].ops| == 2 && RunSteps(steps, i).ops[2 * k + 1] == steps[i + k].ops[1]
  {
    assert WellShaped(steps[i]);
    if steps[i].result.Ok? && k > 0 {
      var rest := RunSteps(steps, i + 1);
      assert RunSteps(steps, i).ops == steps[i].ops + rest.ops;
      RunCallsAt(steps, i + 1, k - 1);
      assert rest.ops[2 * (k - 1)] == RunSteps(steps, i).ops[2 * k];
      if 2 * k + 1 < |RunSteps(steps, i).ops| {
        assert rest.ops[2 * (k - 1) + 1] == RunSteps(steps, i).ops[2 * k + 1];
      }
    }
  }

  // ---------------------------------------------------------------------
  // The shape of a wall's sync
  // ---------------------------------------------------------------------

  /** Climb `k` goes through: its append lands on a row, its colour decodes
      and its colour fill is accepted. */
  predicate StepOk(target: Target, config: Config, climbs: seq<Climb>, replies: Replies, k: nat)
    requires k < |climbs| <= |replies.appends| && |climbs| <= |replies.fills|
  {
    CanFill(target, config, climbs[k], replies.appends[k]) && replies.fills[k].Ok?
  }

  /** Every climb's step is well shaped. */
  lemma StepsWellShaped(target: Target, config: Config, climbs: seq<Climb>, replies: Replies)
    requires |climbs| <= |replies.appends| && |climbs| <= |replies.fills|
    ensures forall k :: 0 <= k < |climbs| ==> WellShaped(Steps(target, config, climbs, replies)[k])
  {
    var steps := Steps(target, config, climbs, replies);
    forall k | 0 <= k < |climbs|
      ensures WellShaped(steps[k])
    {
      StepAt(target, config, climbs, replies, k);
    }
  }

  /** A climb's step succeeds exactly when the climb goes through. */
  lemma StepsSucceed(target: Target, config: Config, climbs: seq<Climb>, replies: Replies)
    requires |climbs| <= |replies.appends| && |climbs| <= |replies.fills|
    ensures forall k :: 0 <= k < |climbs| ==>
              (Steps(target, config, climbs, replies)[k].result.Ok? <==> StepOk(target, config, climbs, replies, k))
  {
    var steps := Steps(target, config, climbs, replies);
    forall k | 0 <= k < |climbs|
      ensures steps[k].result.Ok? <==> StepOk(target, config, climbs, replies, k)
    {
      StepAt(target, config, climbs, replies, k);
    }
  }

  /** The calls of a sync, by position: call `2k` appends climb `k`, and call
      `2k + 1`, when made, colours the climb's cell in the row that append
      landed on. */
  lemma SyncCallsAt(target: Target, config: Config, climbs: seq<Climb>, replies: Replies, k: nat)
    requires |climbs| <= |replies.appends| && |climbs| <= |replies.fills|
    requires 2 * k < |RunSteps(Steps(target, config, climbs, replies), 0).ops|
    ensures k < |climbs|
    ensures RunSteps(Steps(target, config, climbs, replies), 0).ops[2 * k]
            == AppendRow(target.spreadsheetId, target.sheetName, climbs[k])
    ensures 2 * k + 1 < |RunSteps(Steps(target, config, climbs, replies), 0).ops| ==>
              IsFillFor(RunSteps(Steps(target, config, climbs, replies), 0).ops[2 * k + 1],
                        target, config, climbs[k], replies.appends[k])
  {
    var steps := Steps(target, config, climbs, replies);
    StepsWellShaped(target, config, climbs, replies);
    RunCallsAt(steps, 0, k);
    StepAt(target, config, climbs, replies, k);
    var step := AppendClimbToSheet(target, config, climbs[k], replies.appends[k], replies.fills[k]);
    assert steps[k] == step;
    if 2 * k + 1 < |RunSteps(steps, 0).ops| {
      assert RunSteps(steps, 0).ops[2 * k + 1] == step.ops[1];
    }
  }

  /** The sheet a wall's climbs go to, when the spreadsheet has an id and
      the sheet resolves. */
  function TargetOf(spreadsheet: Spreadsheet, gym: Gym, wall: Wall): Option<Target> {
    match spreadsheet.spreadsheetId
    case None => None
    case Some(spreadsheetId) =>
      match GetSheetForGymNameAndWallCategory(spreadsheet, gym.name, wall.category)
      case Err(_) => None
      case Ok(sheet) => Some(Target(spreadsheetId, sheet.0, sheet.1))
  }

  /** A wall's sync makes at most two calls per climb and one sort. The sort
      is made exactly when the sheet resolves and every climb goes through;
      it is then the last call, sorts the resolved sheet newest first by the
      configured date column, and its answer is the outcome. A wall that
      succeeds has been sorted. */
  lemma AddWallShape(config: Config, spreadsheet: Spreadsheet, gym: Gym, wall: Wall, replies: Replies)
    requires |Climbs(wall)| <= |replies.appends| && |Climbs(wall)| <= |replies.fills|
    ensures var e := AddWall(config, spreadsheet, gym, wall, replies);
            var n := |Climbs(wall)|;
            var t := TargetOf(spreadsheet, gym, wall);
            && |e.ops| <= 2 * n + 1
            && (|e.ops| == 2 * n + 1 <==>
                  t.Some? && forall k :: 0 <= k < n ==> StepOk(t.value, config, Climbs(wall), replies, k))
            && (|e.ops| == 2 * n + 1 ==>
                  && e.ops[2 * n] == BatchUpdate(t.value.spreadsheetId, SortSheetByColumnRequest(t.value.sheetIdNum, config.dateColumnIdx))
                  && e.result == replies.sort)
            && (e.result.Ok? ==> |e.ops| == 2 * n + 1)
  {
    var t := TargetOf(spreadsheet, gym, wall);
    if t.Some? {
      var steps := Steps(t.value, config, Climbs(wall), replies);
      StepsWellShaped(t.value, config, Climbs(wall), replies);
      StepsSucceed(t.value, config, Climbs(wall), replies);
      RunLength(steps, 0);
      RunSucceeds(steps, 0);
    }
  }

  /** A wall whose sheet resolves but one of whose climbs fails stops at the
      first such climb: the outcome is that climb's, no sort is made, and the
      calls are two per earlier climb and then that climb's. */
  lemma AddWallStopsAtFirstFailure(config: Config, spreadsheet: Spreadsheet, gym: Gym, wall: Wall, replies: Replies, k: nat)
    requires |Climbs(wall)| <= |replies.appends| && |Climbs(wall)| <= |replies.fills|
    requires TargetOf(spreadsheet, gym, wall).Some?
    requires k < |Climbs(wall)|
    requires forall m :: 0 <= m < k ==> StepOk(TargetOf(spreadsheet, gym, wall).value, config, Climbs(wall), replies, m)
    requires !StepOk(TargetOf(spreadsheet, gym, wall).value, config, Climbs(wall), replies, k)
    ensures var t := TargetOf(spreadsheet, gym, wall).value;
            var c := Climbs(wall);
            var e := AddWall(config, spreadsheet, gym, wall, replies);
            var failed := AppendClimbToSheet(t, config, c[k], replies.appends[k], replies.fills[k]);
            && e.result == failed.result && e.result.Err?
            && |e.ops| == 2 * k + |failed.ops|
            && e.ops[2 * k..] == failed.ops
  {
    var t := TargetOf(spreadsheet, gym, wall).value;
    var steps := Steps(t, config, Climbs(wall), replies);
    StepsWellShaped(t, config, Climbs(wall), replies);
    StepsSucceed(t, config, Climbs(wall), replies);
    StepAt(t, config, Climbs(wall), replies, k);
    RunStopsAtFirstFailure(steps, 0, k);
    ConcatLength(steps, 0, k);
    var run := RunSteps(steps, 0);
    assert AddWall(config, spreadsheet, gym, wall, replies) == run;
    assert run.ops[2 * k..] == steps[k].ops;
  }

  /** Each of the well-shaped, successful steps from `i` up to `k` adds two calls. */
  lemma {:induction false} ConcatLength(steps: seq<Effects>, i: nat, k: nat)
    requires i <= k <= |steps|
    requires forall m :: i <= m < k ==> WellShaped(steps[m]) && steps[m].result.Ok?
    decreases k - i
    ensures |Concat(steps, i, k)| == 2 * (k - i)
  {
    if i < k {
      assert WellShaped(steps[i]);
      ConcatLength(steps, i + 1, k);
    }
  }
}
