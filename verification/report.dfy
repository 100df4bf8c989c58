/** The `report` command: a quality report over the summaries. The
    configuration names categories (top-level keys of a summary) and fields
    (keys inside a category), each field a number, an enum or something
    else. The report is a table category -> field -> cell, where a number
    cell accumulates and an enum cell counts, per value seen, how many
    summaries had it; and a map from summary file to its error messages.

    The table starts with a cell for every category and counted field, and
    is then updated in place, one parsed summary at a time. */
module Report {
  import opened Wrappers
  import opened Paths
  import opened JsValues
  import opened Walker

  datatype FieldType = NumberField | EnumField(values: seq<string>) | OtherField

  /** An entry of `Object.entries(report.fields)`. */
  datatype ReportField = ReportField(name: string, kind: FieldType)

  /** A number cell, or the counts of the enum values seen (by property key). */
  datatype Cell = Count(n: int) | Buckets(counts: map<string, nat>)

  type Table = map<string, map<string, Cell>>

  type ErrorMap = map<Path, seq<string>>

  /** The top-level entries that the number branch writes as written. */
  type Totals = map<string, JsValue>

  /** The report object (its category rows, and the top-level entries
      kept apart as `totals`) and the error map. */
  datatype ReportState = ReportState(result: Table, totals: Totals, errors: ErrorMap)

  /** Where the number branch adds a value: `TopLevel` is the command as
      written, `result[field] += value || 0`; `InCell` is the evidently
      intended `result[category][field]`, where only numbers add. */
  datatype NumberTarget = TopLevel | InCell

  /** What the command reads: the report configuration, the summary
      directory, the current directory, the file reader and `JSON.parse`. */
  datatype ReportEnv = ReportEnv(
    categories: seq<string>,
    fields: seq<ReportField>,
    summaryDir: Path,
    currentDirectory: Path,
    readFile: Path -> Outcome<string>,
    parse: JsonParse)

  /** The keys of an object are distinct. */
  predicate DistinctNames(fields: seq<ReportField>) {
    forall i, j | 0 <= i < j < |fields| :: fields[i].name != fields[j].name
  }

  predicate DistinctStrings(xs: seq<string>) {
    forall i, j | 0 <= i < j < |xs| :: xs[i] != xs[j]
  }

  // ---------------------------------------------------------------------
  // The initial table

  /** `Object.fromEntries(values.map(e => [e, 0]))` */
  function ZeroBuckets(values: seq<string>): (m: map<string, nat>)
    ensures forall v :: v in m <==> v in values
    ensures forall v | v in m :: m[v] == 0
  {
    map v | v in values :: 0
  }

  /** The cells of one category: 0 for a number field, zero counts for an
      enum field, nothing for another kind. */
  function InitCells(fields: seq<ReportField>): map<string, Cell>
    decreases |fields|
  {
    if fields == [] then map[]
    else
      var cells := InitCells(fields[..|fields| - 1]);
      var field := fields[|fields| - 1];
      match field.kind
      case NumberField => cells[field.name := Count(0)]
      case EnumField(values) => cells[field.name := Buckets(ZeroBuckets(values))]
      case OtherField => cells
  }

  function InitialTable(categories: seq<string>, fields: seq<ReportField>): Table
    decreases |categories|
  {
    if categories == [] then map[]
    else InitialTable(categories[..|categories| - 1], fields)[categories[|categories| - 1] := InitCells(fields)]
  }

  /** The first nested loop of `reportAction`. */
  method BuildInitialTable(categories: seq<string>, fields: seq<ReportField>) returns (result: Table)
    ensures result == InitialTable(categories, fields)
  {
    result := map[];
    for i := 0 to |categories|
      invariant result == InitialTable(categories[..i], fields)
    {
      var category := categories[i];
      assert categories[..i + 1][..i] == categories[..i];
      result := result[category := map[]];
      for j := 0 to |fields|
        invariant result == InitialTable(categories[..i], fields)[category := InitCells(fields[..j])]
      {
        var field := fields[j];
        assert fields[..j + 1][..j] == fields[..j];
        match field.kind {
          case NumberField =>
            result := result[category := result[category][field.name := Count(0)]];
          case EnumField(values) =>
            result := result[category := result[category][field.name := Buckets(ZeroBuckets(values))]];
          case OtherField =>
        }
      }
      assert fields[..|fields|] == fields;
    }
    assert categories[..|categories|] == categories;
  }

  /** The cell of a field kind in the initial table. */
  function InitialCell(kind: FieldType): Option<Cell> {
    match kind
    case NumberField => Some(Count(0))
    case EnumField(values) => Some(Buckets(ZeroBuckets(values)))
    case OtherField => None
  }

  function CellAt(t: Table, c: string, f: string): Option<Cell> {
    if c in t && f in t[c] then Some(t[c][f]) else None
  }

  /** With distinct field names, a category's cells are exactly the
      initial cells of its number and enum fields. */
  lemma {:induction false} InitCellsShape(fields: seq<ReportField>)
    requires DistinctNames(fields)
    ensures forall i | 0 <= i < |fields| ::
      (if fields[i].name in InitCells(fields) then Some(InitCells(fields)[fields[i].name]) else None) == InitialCell(fields[i].kind)
    ensures forall f | f in InitCells(fields) :: exists i :: 0 <= i < |fields| && fields[i].name == f
    decreases |fields|
  {
    if fields != [] {
      var init := fields[..|fields| - 1];
      InitCellsShape(init);
      var cells := InitCells(fields);
      forall f | f in cells ensures exists i :: 0 <= i < |fields| && fields[i].name == f {
        if f != fields[|fields| - 1].name {
          var i :| 0 <= i < |init| && init[i].name == f;
          assert fields[i].name == f;
        }
      }
    }
  }

  /** The initial table has a row for exactly the categories, each with
      the initial cells of the fields. */
  lemma {:induction false} InitialTableShape(categories: seq<string>, fields: seq<ReportField>)
    requires DistinctNames(fields)
    ensures forall c :: c in InitialTable(categories, fields) <==> c in categories
    ensures forall ci, fi | 0 <= ci < |categories| && 0 <= fi < |fields| ::
      CellAt(InitialTable(categories, fields), categories[ci], fields[fi].name) == InitialCell(fields[fi].kind)
    decreases |categories|
  {
    InitCellsShape(fields);
    if categories != [] {
      var init := categories[..|categories| - 1];
      InitialTableShape(init, fields);
      forall c ensures c in InitialTable(categories, fields) <==> c in categories {
        assert c in categories <==> c in init || c == categories[|categories| - 1];
      }
    }
  }

  // ---------------------------------------------------------------------
  // One summary

  function UpdateCell(t: Table, c: string, f: string, cell: Cell): (r: Table)
    ensures forall c2, f2 :: CellAt(r, c2, f2) == if c2 == c && f2 == f then Some(cell) else CellAt(t, c2, f2)
    ensures forall c2 :: c2 in r <==> c2 in t || c2 == c
  {
    t[c := (if c in t then t[c] else map[])[f := cell]]
  }

  function BucketCounts(cell: Option<Cell>): map<string, nat> {
    if cell.Some? && cell.value.Buckets? then cell.value.counts else map[]
  }

  function CountIn(counts: map<string, nat>, key: string): nat {
    if key in counts then counts[key] else 0
  }

  /** `result[c][f][value] = 1 + (result[c]?.[f]?.[value] || 0)` */
  function Bumped(cell: Option<Cell>, key: string): Cell {
    var counts := BucketCounts(cell);
    Buckets(counts[key := 1 + CountIn(counts, key)])
  }

  /** What a number field contributes to its cell in the corrected command:
      its value when it is a number, nothing otherwise (such a value is
      reported as not a number). */
  function NumericValue(v: JsValue): int {
    if v.Num? then v.n else 0
  }

  function Added(cell: Option<Cell>, value: JsValue): Cell {
    Count((if cell.Some? && cell.value.Count? then cell.value.n else 0) + NumericValue(value))
  }

  /** `result[field] += value || 0`: the sum goes to a top-level entry named
      after the field, which was never initialised, rather than to
      `result[category][field]`. */
  function AddToTotalAsWritten(totals: Totals, field: string, value: JsValue): Totals {
    var current := if field in totals then totals[field] else Undef;
    totals[field := JsAdd(current, Or(value, Num(0)))]
  }

  /** `errors[file] = [...errors[file] || [], message]` */
  function AddError(errors: ErrorMap, file: Path, message: string): ErrorMap {
    errors[file := (if file in errors then errors[file] else []) + [message]]
  }

  /** The body of the inner loop for one field, given `json[category]`. */
  function FieldStep(s: ReportState, file: Path, c: string, categoryValue: JsValue, field: ReportField, target: NumberTarget): ReportState {
    var value := OptionalMember(categoryValue, field.name);
    match field.kind
    case EnumField(_) =>
      s.(result := UpdateCell(s.result, c, field.name, Bumped(CellAt(s.result, c, field.name), PropertyKey(value))))
    case NumberField =>
      var errors := if TypeOf(value) != "number" then AddError(s.errors, file, field.name + " is not a number") else s.errors;
      (match target
       case TopLevel => ReportState(s.result, AddToTotalAsWritten(s.totals, field.name, value), errors)
       case InCell => ReportState(UpdateCell(s.result, c, field.name, Added(CellAt(s.result, c, field.name), value)), s.totals, errors))
    case OtherField => s
  }

  function FieldsStep(s: ReportState, file: Path, c: string, categoryValue: JsValue, fields: seq<ReportField>, target: NumberTarget): ReportState
    decreases |fields|
  {
    if fields == [] then s
    else FieldStep(FieldsStep(s, file, c, categoryValue, fields[..|fields| - 1], target), file, c, categoryValue, fields[|fields| - 1], target)
  }

  /** One category: `json[category]` throws on a null summary, but only
      when there is a field to look up. */
  function CategoryStep(s: ReportState, file: Path, json: JsValue, c: string, fields: seq<ReportField>, target: NumberTarget): Outcome<ReportState> {
    if fields == [] then Returns(s)
    else
      var categoryValue :- Member(json, c);
      Returns(FieldsStep(s, file, c, categoryValue, fields, target))
  }

  function CategoriesStep(s: ReportState, file: Path, json: JsValue, categories: seq<string>, fields: seq<ReportField>, target: NumberTarget): Outcome<ReportState>
    decreases |categories|
  {
    if categories == [] then Returns(s)
    else
      var before :- CategoriesStep(s, file, json, categories[..|categories| - 1], fields, target);
      CategoryStep(before, file, json, categories[|categories| - 1], fields, target)
  }

  /** One summary file: read, parse and count; any error is appended to the
      file's messages and leaves the table and the top-level entries as
      they were. */
  function ScanFile(s: ReportState, env: ReportEnv, file: Path, target: NumberTarget): ReportState {
    match env.readFile(Join(env.currentDirectory, file))
    case Throws(m) => s.(errors := AddError(s.errors, file, m))
    case Returns(text) =>
      match env.parse(text)
      case Throws(m) => s.(errors := AddError(s.errors, file, m))
      case Returns(json) =>
        match CategoriesStep(s, file, json, env.categories, env.fields, target)
        case Throws(m) => s.(errors := AddError(s.errors, file, m))
        case Returns(after) => after
  }

  function ScanFiles(s: ReportState, env: ReportEnv, files: seq<Path>, target: NumberTarget): ReportState
    decreases |files|
  {
    if files == [] then s else ScanFile(ScanFiles(s, env, files[..|files| - 1], target), env, files[|files| - 1], target)
  }

  /** The state the command starts the scan from. */
  function InitialState(env: ReportEnv): ReportState {
    ReportState(InitialTable(env.categories, env.fields), map[], map[])
  }

  /** The whole command over the summary directory as `tree` lists it. */
  function ReportWith(env: ReportEnv, tree: seq<Node>, target: NumberTarget): ReportState {
    ScanFiles(InitialState(env), env, GetFilesRecursively(env.summaryDir, tree, None), target)
  }

  /** `reportAction` as written. */
  function Report(env: ReportEnv, tree: seq<Node>): ReportState {
    ReportWith(env, tree, TopLevel)
  }

  /** `reportAction` with the number branch adding into the category's cell. */
  function CorrectedReport(env: ReportEnv, tree: seq<Node>): ReportState {
    ReportWith(env, tree, InCell)
  }

  // ---------------------------------------------------------------------
  // The command, as loops

  /** The `try` block for one file and its `catch`. */
  method ScanOne(result0: Table, totals0: Totals, errors0: ErrorMap, env: ReportEnv, file: Path, target: NumberTarget)
    returns (result: Table, totals: Totals, errors: ErrorMap)
    ensures ReportState(result, totals, errors) == ScanFile(ReportState(result0, totals0, errors0), env, file, target)
  {
    result, totals, errors := result0, totals0, errors0;
    var content := env.readFile(Join(env.currentDirectory, file));
    if content.Throws? {
      errors := AddError(errors, file, content.message);
      return;
    }
    var json := env.parse(content.value);
    if json.Throws? {
      errors := AddError(errors, file, json.message);
      return;
    }
    ghost var start := ReportState(result0, totals0, errors0);
    var categories, fields := env.categories, env.fields;
    for i := 0 to |categories|
      invariant CategoriesStep(start, file, json.value, categories[..i], fields, target) == Returns(ReportState(result, totals, errors))
      invariant (json.value.Null? || json.value.Undef?) && fields != [] ==> i == 0
    {
      var category := categories[i];
      assert categories[..i + 1][..i] == categories[..i];
      if fields != [] {
        var categoryValue := Member(json.value, category);
        if categoryValue.Throws? {
          CategoriesStepThrows(start, file, json.value, categories, fields, target);
          errors := AddError(errors, file, categoryValue.message);
          return;
        }
        result, totals, errors := ScanFields(result, totals, errors, file, category, categoryValue.value, fields, target);
      }
    }
    assert categories[..|categories|] == categories;
  }

  /** The inner loop: every field of one category, given `json[category]`
      (which does not change while the loop runs). */
  method ScanFields(result0: Table, totals0: Totals, errors0: ErrorMap, file: Path, category: string, categoryValue: JsValue,
                    fields: seq<ReportField>, target: NumberTarget)
    returns (result: Table, totals: Totals, errors: ErrorMap)
    ensures ReportState(result, totals, errors) ==
            FieldsStep(ReportState(result0, totals0, errors0), file, category, categoryValue, fields, target)
  {
    result, totals, errors := result0, totals0, errors0;
    for j := 0 to |fields|
      invariant FieldsStep(ReportState(result0, totals0, errors0), file, category, categoryValue, fields[..j], target) ==
                ReportState(result, totals, errors)
    {
      assert fields[..j + 1][..j] == fields[..j];
      result, totals, errors := ScanField(result, totals, errors, file, category, categoryValue, fields[j], target);
    }
    assert fields[..|fields|] == fields;
  }

  /** The body of the inner loop: one field of one category. */
  method ScanField(result0: Table, totals0: Totals, errors0: ErrorMap, file: Path, category: string, categoryValue: JsValue,
                   field: ReportField, target: NumberTarget)
    returns (result: Table, totals: Totals, errors: ErrorMap)
    ensures ReportState(result, totals, errors) == FieldStep(ReportState(result0, totals0, errors0), file, category, categoryValue, field, target)
  {
    result, totals, errors := result0, totals0, errors0;
    var value := OptionalMember(categoryValue, field.name);
    match field.kind {
      case EnumField(_) =>
        result := UpdateCell(result, category, field.name, Bumped(CellAt(result, category, field.name), PropertyKey(value)));
      case NumberField =>
        if TypeOf(value) != "number" {
          errors := AddError(errors, file, field.name + " is not a number");
        }
        match target {
          case TopLevel =>
            totals := AddToTotalAsWritten(totals, field.name, value);
          case InCell =>
            result := UpdateCell(result, category, field.name, Added(CellAt(result, category, field.name), value));
        }
      case OtherField =>
    }
  }

  /** `reportAction`: build the table, then scan every file below the
      summary directory (no filter), in walking order. With `TopLevel` it
      is the command as written, with `InCell` the corrected command. */
  method ReportAction(env: ReportEnv, tree: seq<Node>, target: NumberTarget) returns (result: Table, totals: Totals, errors: ErrorMap)
    ensures ReportState(result, totals, errors) == ReportWith(env, tree, target)
  {
    result := BuildInitialTable(env.categories, env.fields);
    totals := map[];
    errors := map[];
    var files := GetFilesRecursively(env.summaryDir, tree, None);
    for k := 0 to |files|
      invariant ReportState(result, totals, errors) == ScanFiles(InitialState(env), env, files[..k], target)
    {
      assert files[..k + 1][..k] == files[..k];
      result, totals, errors := ScanOne(result, totals, errors, env, files[k], target);
    }
    assert files[..|files|] == files;
  }

  // ---------------------------------------------------------------------
  // Which cells one summary changes, and how

  /** The effect of one field on its own cell: an enum bumps a bucket; a
      number adds to the cell only in the corrected command. */
  function Touch(cell: Option<Cell>, kind: FieldType, value: JsValue, target: NumberTarget): Option<Cell> {
    match kind
    case EnumField(_) => Some(Bumped(cell, PropertyKey(value)))
    case NumberField => if target.InCell? then Some(Added(cell, value)) else cell
    case OtherField => cell
  }

  /** A null summary throws at the first category, before any update. */
  lemma {:induction false} CategoriesStepThrows(s: ReportState, file: Path, json: JsValue, categories: seq<string>, fields: seq<ReportField>, target: NumberTarget)
    requires (json.Null? || json.Undef?) && categories != [] && fields != []
    ensures CategoriesStep(s, file, json, categories, fields, target) == Throws(ReadTypeError(json, categories[0]))
    decreases |categories|
  {
    var init := categories[..|categories| - 1];
    if init != [] {
      CategoriesStepThrows(s, file, json, init, fields, target);
      assert init[0] == categories[0];
    }
  }

  /** Any other summary goes through every category. */
  lemma {:induction false} CategoriesStepReturns(s: ReportState, file: Path, json: JsValue, categories: seq<string>, fields: seq<ReportField>, target: NumberTarget)
    requires !json.Null? && !json.Undef?
    ensures CategoriesStep(s, file, json, categories, fields, target).Returns?
    decreases |categories|
  {
    if categories != [] {
      CategoriesStepReturns(s, file, json, categories[..|categories| - 1], fields, target);
    }
  }

  lemma {:induction false} FieldsStepUntouched(s: ReportState, file: Path, c: string, categoryValue: JsValue, fields: seq<ReportField>, target: NumberTarget, c2: string, f2: string)
    requires c2 != c || forall i | 0 <= i < |fields| :: fields[i].name != f2
    ensures CellAt(FieldsStep(s, file, c, categoryValue, fields, target).result, c2, f2) == CellAt(s.result, c2, f2)
    decreases |fields|
  {
    if fields != [] {
      FieldsStepUntouched(s, file, c, categoryValue, fields[..|fields| - 1], target, c2, f2);
    }
  }

  lemma {:induction false} FieldsStepTouched(s: ReportState, file: Path, c: string, categoryValue: JsValue, fields: seq<ReportField>, target: NumberTarget, fi: nat)
    requires DistinctNames(fields) && fi < |fields|
    ensures CellAt(FieldsStep(s, file, c, categoryValue, fields, target).result, c, fields[fi].name) ==
            Touch(CellAt(s.result, c, fields[fi].name), fields[fi].kind, OptionalMember(categoryValue, fields[fi].name), target)
    decreases |fields|
  {
    var init := fields[..|fields| - 1];
    var mid := FieldsStep(s, file, c, categoryValue, init, target);
    if fi == |fields| - 1 {
      FieldsStepUntouched(s, file, c, categoryValue, init, target, c, fields[fi].name);
    } else {
      FieldsStepTouched(s, file, c, categoryValue, init, target, fi);
    }
    FieldStepCell(mid, file, c, categoryValue, fields[|fields| - 1], target, fields[fi].name);
  }

  /** One field changes its own cell by its effect and no other cell. */
  lemma FieldStepCell(s: ReportState, file: Path, c: string, categoryValue: JsValue, field: ReportField, target: NumberTarget, f: string)
    ensures CellAt(FieldStep(s, file, c, categoryValue, field, target).result, c, f) ==
            if f == field.name then Touch(CellAt(s.result, c, f), field.kind, OptionalMember(categoryValue, f), target)
            else CellAt(s.result, c, f)
  {
  }

  lemma {:induction false} CategoriesStepUntouched(s: ReportState, file: Path, json: JsValue, categories: seq<string>, fields: seq<ReportField>, target: NumberTarget, c2: string, f2: string)
    requires (forall i | 0 <= i < |categories| :: categories[i] != c2) || (forall i | 0 <= i < |fields| :: fields[i].name != f2)
    ensures CategoriesStep(s, file, json, categories, fields, target).Returns? ==>
      CellAt(CategoriesStep(s, file, json, categories, fields, target).value.result, c2, f2) == CellAt(s.result, c2, f2)
    decreases |categories|
  {
    if categories != [] {
      var init := categories[..|categories| - 1];
      var last := categories[|categories| - 1];
      CategoriesStepUntouched(s, file, json, init, fields, target, c2, f2);
      if CategoriesStep(s, file, json, init, fields, target).Returns? && fields != [] && Member(json, last).Returns? {
        var before := CategoriesStep(s, file, json, init, fields, target).value;
        FieldsStepUntouched(before, file, last, Member(json, last).value, fields, target, c2, f2);
      }
    }
  }

  lemma {:induction false} CategoriesStepTouched(s: ReportState, file: Path, json: JsValue, categories: seq<string>, fields: seq<ReportField>, target: NumberTarget, ci: nat, fi: nat)
    requires !json.Null? && !json.Undef?
    requires DistinctStrings(categories) && DistinctNames(fields) && ci < |categories| && fi < |fields|
    ensures CategoriesStep(s, file, json, categories, fields, target).Returns?
    ensures CellAt(CategoriesStep(s, file, json, categories, fields, target).value.result, categories[ci], fields[fi].name) ==
            Touch(CellAt(s.result, categories[ci], fields[fi].name), fields[fi].kind,
                  OptionalMember(OptionalMember(json, categories[ci]), fields[fi].name), target)
    decreases |categories|
  {
    var init := categories[..|categories| - 1];
    var last := categories[|categories| - 1];
    var c, f := categories[ci], fields[fi].name;
    CategoriesStepReturns(s, file, json, init, fields, target);
    var before := CategoriesStep(s, file, json, init, fields, target).value;
    if ci == |categories| - 1 {
      CategoriesStepUntouched(s, file, json, init, fields, target, c, f);
      assert forall i | 0 <= i < |init| :: init[i] != c;
      FieldsStepTouched(before, file, last, Member(json, last).value, fields, target, fi);
    } else {
      CategoriesStepTouched(s, file, json, init, fields, target, ci, fi);
      FieldsStepUntouched(before, file, last, Member(json, last).value, fields, target, c, f);
    }
  }

  /** The summary `file` reads and parses to a value other than null. */
  predicate Parsed(env: ReportEnv, file: Path) {
    env.readFile(Join(env.currentDirectory, file)).Returns? &&
    env.parse(env.readFile(Join(env.currentDirectory, file)).value).Returns? &&
    !env.parse(env.readFile(Join(env.currentDirectory, file)).value).value.Null? &&
    !env.parse(env.readFile(Join(env.currentDirectory, file)).value).value.Undef?
  }

  function ParsedJson(env: ReportEnv, file: Path): JsValue
    requires Parsed(env, file)
  {
    env.parse(env.readFile(Join(env.currentDirectory, file)).value).value
  }

  /** A summary changes the cell of each (category, counted field) by that
      field's effect on `json[category]?.[field]`, once (categories and
      field names being distinct); a summary that cannot be read, parsed,
      or is null changes no cell. */
  lemma ScanFileCell(s: ReportState, env: ReportEnv, file: Path, target: NumberTarget, ci: nat, fi: nat)
    requires DistinctStrings(env.categories) && DistinctNames(env.fields)
    requires ci < |env.categories| && fi < |env.fields|
    ensures var c, f := env.categories[ci], env.fields[fi].name;
      CellAt(ScanFile(s, env, file, target).result, c, f) ==
      if Parsed(env, file) then Touch(CellAt(s.result, c, f), env.fields[fi].kind, OptionalMember(OptionalMember(ParsedJson(env, file), c), f), target)
      else CellAt(s.result, c, f)
  {
    if Parsed(env, file) {
      CategoriesStepTouched(s, file, ParsedJson(env, file), env.categories, env.fields, target, ci, fi);
    } else if env.readFile(Join(env.currentDirectory, file)).Returns? && env.parse(env.readFile(Join(env.currentDirectory, file)).value).Returns? {
      CategoriesStepThrows(s, file, env.parse(env.readFile(Join(env.currentDirectory, file)).value).value, env.categories, env.fields, target);
    }
  }

  /** A cell outside the configured categories and fields never changes. */
  lemma ScanFileOtherCells(s: ReportState, env: ReportEnv, file: Path, target: NumberTarget, c2: string, f2: string)
    requires (forall i | 0 <= i < |env.categories| :: env.categories[i] != c2) || (forall i | 0 <= i < |env.fields| :: env.fields[i].name != f2)
    ensures CellAt(ScanFile(s, env, file, target).result, c2, f2) == CellAt(s.result, c2, f2)
  {
    var read := env.readFile(Join(env.currentDirectory, file));
    if read.Returns? && env.parse(read.value).Returns? {
      CategoriesStepUntouched(s, file, env.parse(read.value).value, env.categories, env.fields, target, c2, f2);
    }
  }

  /** For an enum field the bucket of the value's property key goes up by
      exactly one (a value not listed gets a new bucket with count 1) and
      no other bucket changes. */
  lemma EnumBucketBumped(s: ReportState, env: ReportEnv, file: Path, target: NumberTarget, ci: nat, fi: nat)
    requires DistinctStrings(env.categories) && DistinctNames(env.fields)
    requires ci < |env.categories| && fi < |env.fields| && env.fields[fi].kind.EnumField?
    requires Parsed(env, file)
    ensures var c, f := env.categories[ci], env.fields[fi].name;
      var key := PropertyKey(OptionalMember(OptionalMember(ParsedJson(env, file), c), f));
      var before := BucketCounts(CellAt(s.result, c, f));
      var after := BucketCounts(CellAt(ScanFile(s, env, file, target).result, c, f));
      CountIn(after, key) == CountIn(before, key) + 1 &&
      forall k | k != key :: CountIn(after, k) == CountIn(before, k)
  {
    ScanFileCell(s, env, file, target, ci, fi);
  }

  /** A number cell: as written it never changes; in the corrected command
      it grows by the value when that is a number. */
  lemma NumberCellAdds(s: ReportState, env: ReportEnv, file: Path, target: NumberTarget, ci: nat, fi: nat)
    requires DistinctStrings(env.categories) && DistinctNames(env.fields)
    requires ci < |env.categories| && fi < |env.fields| && env.fields[fi].kind.NumberField?
    requires CellAt(s.result, env.categories[ci], env.fields[fi].name).Some?
    requires CellAt(s.result, env.categories[ci], env.fields[fi].name).value.Count?
    ensures var c, f := env.categories[ci], env.fields[fi].name;
      CellAt(ScanFile(s, env, file, target).result, c, f) ==
      Some(Count(CellAt(s.result, c, f).value.n +
                 (if target.InCell? && Parsed(env, file) then NumericValue(OptionalMember(OptionalMember(ParsedJson(env, file), c), f)) else 0)))
  {
    ScanFileCell(s, env, file, target, ci, fi);
  }

  /** A number field whose value is not a number adds a message for the
      file, after the ones it already had. */
  lemma NotANumberReported(s: ReportState, file: Path, c: string, categoryValue: JsValue, field: ReportField, target: NumberTarget)
    requires field.kind.NumberField? && TypeOf(OptionalMember(categoryValue, field.name)) != "number"
    ensures FieldStep(s, file, c, categoryValue, field, target).errors ==
            AddError(s.errors, file, field.name + " is not a number")
  {
  }

  /** A file that cannot be read or parsed, or that is null, adds its
      error message and changes nothing else; the scan goes on. */
  lemma FailedFileRecorded(s: ReportState, env: ReportEnv, file: Path, target: NumberTarget)
    requires !Parsed(env, file)
    requires env.categories != [] && env.fields != []
    ensures ScanFile(s, env, file, target).result == s.result
    ensures ScanFile(s, env, file, target).totals == s.totals
    ensures exists m :: ScanFile(s, env, file, target).errors == AddError(s.errors, file, m)
  {
    var read := env.readFile(Join(env.currentDirectory, file));
    if read.Throws? {
      assert ScanFile(s, env, file, target).errors == AddError(s.errors, file, read.message);
    } else if env.parse(read.value).Throws? {
      assert ScanFile(s, env, file, target).errors == AddError(s.errors, file, env.parse(read.value).message);
    } else {
      var json := env.parse(read.value).value;
      CategoriesStepThrows(s, file, json, env.categories, env.fields, target);
      assert ScanFile(s, env, file, target).errors == AddError(s.errors, file, ReadTypeError(json, env.categories[0]));
    }
  }

  // ---------------------------------------------------------------------
  // Over all summaries

  /** A key of a non-empty map. */
  ghost function PickKey(m: map<string, nat>): string
    requires m != map[]
  {
    var k :| k in m; k
  }

  /** The sum of the counts of an enum cell. */
  ghost function Total(m: map<string, nat>): nat
    decreases |m|
  {
    if m == map[] then 0
    else
      var k := PickKey(m);
      assert |(m - {k}).Keys| < |m.Keys| by {
        assert (m - {k}).Keys == m.Keys - {k};
      }
      m[k] + Total(m - {k})
  }

  /** The total does not depend on which key is taken first. */
  lemma {:induction false} TotalRemove(m: map<string, nat>, k: string)
    requires k in m
    ensures Total(m) == m[k] + Total(m - {k})
    decreases |m|
  {
    var j := PickKey(m);
    if j != k {
      assert (m - {j}).Keys == m.Keys - {j};
      assert (m - {k}).Keys == m.Keys - {k};
      TotalRemove(m - {j}, k);
      TotalRemove(m - {k}, j);
      assert m - {j} - {k} == m - {k} - {j};
    }
  }

  lemma {:induction false} TotalOfZeros(m: map<string, nat>)
    requires forall k | k in m :: m[k] == 0
    ensures Total(m) == 0
    decreases |m|
  {
    if m != map[] {
      var k := PickKey(m);
      assert (m - {k}).Keys == m.Keys - {k};
      TotalOfZeros(m - {k});
    }
  }

  /** Bumping one bucket raises the total by one. */
  lemma TotalIncrement(m: map<string, nat>, key: string)
    ensures Total(m[key := 1 + CountIn(m, key)]) == Total(m) + 1
  {
    var m2 := m[key := 1 + CountIn(m, key)];
    TotalRemove(m2, key);
    assert m2 - {key} == m - {key};
    if key in m {
      TotalRemove(m, key);
    } else {
      assert m - {key} == m;
    }
  }

  /** How many of `files` read and parse to a value other than null. */
  function ParsedCount(env: ReportEnv, files: seq<Path>): (n: nat)
    ensures n <= |files|
    decreases |files|
  {
    if files == [] then 0
    else ParsedCount(env, files[..|files| - 1]) + (if Parsed(env, files[|files| - 1]) then 1 else 0)
  }

  /** The sum of the numbers that `files` hold at `json[c][f]`. */
  function ParsedSum(env: ReportEnv, files: seq<Path>, c: string, f: string): int
    decreases |files|
  {
    if files == [] then 0
    else
      var last := files[|files| - 1];
      ParsedSum(env, files[..|files| - 1], c, f) +
      (if Parsed(env, last) then NumericValue(OptionalMember(OptionalMember(ParsedJson(env, last), c), f)) else 0)
  }

  lemma {:induction false} ScanFilesEnumTotal(s: ReportState, env: ReportEnv, files: seq<Path>, target: NumberTarget, ci: nat, fi: nat)
    requires DistinctStrings(env.categories) && DistinctNames(env.fields)
    requires ci < |env.categories| && fi < |env.fields| && env.fields[fi].kind.EnumField?
    ensures var c, f := env.categories[ci], env.fields[fi].name;
      Total(BucketCounts(CellAt(ScanFiles(s, env, files, target).result, c, f))) ==
      Total(BucketCounts(CellAt(s.result, c, f))) + ParsedCount(env, files)
    decreases |files|
  {
    if files != [] {
      var c, f := env.categories[ci], env.fields[fi].name;
      var last := files[|files| - 1];
      ScanFilesEnumTotal(s, env, files[..|files| - 1], target, ci, fi);
      var mid := ScanFiles(s, env, files[..|files| - 1], target);
      ScanFileCell(mid, env, last, target, ci, fi);
      if Parsed(env, last) {
        TotalIncrement(BucketCounts(CellAt(mid.result, c, f)), PropertyKey(OptionalMember(OptionalMember(ParsedJson(env, last), c), f)));
      }
    }
  }

  /** Every summary that parses to a value other than null is counted in
      exactly one bucket of each enum cell: the buckets of a cell add up to
      the number of such summaries. */
  lemma ReportEnumTotal(env: ReportEnv, tree: seq<Node>, target: NumberTarget, ci: nat, fi: nat)
    requires DistinctStrings(env.categories) && DistinctNames(env.fields)
    requires ci < |env.categories| && fi < |env.fields| && env.fields[fi].kind.EnumField?
    ensures Total(BucketCounts(CellAt(ReportWith(env, tree, target).result, env.categories[ci], env.fields[fi].name))) ==
            ParsedCount(env, GetFilesRecursively(env.summaryDir, tree, None))
  {
    InitialTableShape(env.categories, env.fields);
    TotalOfZeros(ZeroBuckets(env.fields[fi].kind.values));
    ScanFilesEnumTotal(InitialState(env), env, GetFilesRecursively(env.summaryDir, tree, None), target, ci, fi);
  }

  lemma {:induction false} ScanFilesNumberCell(s: ReportState, env: ReportEnv, files: seq<Path>, target: NumberTarget, ci: nat, fi: nat)
    requires DistinctStrings(env.categories) && DistinctNames(env.fields)
    requires ci < |env.categories| && fi < |env.fields| && env.fields[fi].kind.NumberField?
    requires CellAt(s.result, env.categories[ci], env.fields[fi].name).Some?
    requires CellAt(s.result, env.categories[ci], env.fields[fi].name).value.Count?
    ensures var c, f := env.categories[ci], env.fields[fi].name;
      CellAt(ScanFiles(s, env, files, target).result, c, f) ==
      Some(Count(CellAt(s.result, c, f).value.n + (if target.InCell? then ParsedSum(env, files, c, f) else 0)))
    decreases |files|
  {
    if files != [] {
      ScanFilesNumberCell(s, env, files[..|files| - 1], target, ci, fi);
      NumberCellAdds(ScanFiles(s, env, files[..|files| - 1], target), env, files[|files| - 1], target, ci, fi);
    }
  }

  /** As written, the number cell of every category stays at the 0 it was
      given, whatever the summaries hold. */
  lemma ReportNumberCellsStayZero(env: ReportEnv, tree: seq<Node>, ci: nat, fi: nat)
    requires DistinctStrings(env.categories) && DistinctNames(env.fields)
    requires ci < |env.categories| && fi < |env.fields| && env.fields[fi].kind.NumberField?
    ensures CellAt(Report(env, tree).result, env.categories[ci], env.fields[fi].name) == Some(Count(0))
  {
    InitialTableShape(env.categories, env.fields);
    ScanFilesNumberCell(InitialState(env), env, GetFilesRecursively(env.summaryDir, tree, None), TopLevel, ci, fi);
  }

  /** In the corrected command the number cell of each category ends as
      the sum of the numbers the summaries hold for that category and
      field (values that are not numbers add nothing). */
  lemma CorrectedReportNumberTotal(env: ReportEnv, tree: seq<Node>, ci: nat, fi: nat)
    requires DistinctStrings(env.categories) && DistinctNames(env.fields)
    requires ci < |env.categories| && fi < |env.fields| && env.fields[fi].kind.NumberField?
    ensures CellAt(CorrectedReport(env, tree).result, env.categories[ci], env.fields[fi].name) ==
            Some(Count(ParsedSum(env, GetFilesRecursively(env.summaryDir, tree, None), env.categories[ci], env.fields[fi].name)))
  {
    InitialTableShape(env.categories, env.fields);
    ScanFilesNumberCell(InitialState(env), env, GetFilesRecursively(env.summaryDir, tree, None), InCell, ci, fi);
  }

  // ---------------------------------------------------------------------
  // The top-level entries, as written

  /** No top-level entry holds a number. */
  predicate NoNumberTotals(totals: Totals) {
    forall f | f in totals :: totals[f].NaN? || totals[f].Str?
  }

  /** The names of the number fields among `fields`. */
  predicate AllNumberFieldsIn(fields: seq<ReportField>, totals: Totals) {
    forall i | 0 <= i < |fields| && fields[i].kind.NumberField? :: fields[i].name in totals
  }

  /** `undefined + n` is NaN, and NaN and strings absorb whatever is added
      to them: an entry that starts missing never becomes a number. */
  lemma AddToTotalKeeps(totals: Totals, field: string, value: JsValue)
    requires NoNumberTotals(totals)
    ensures NoNumberTotals(AddToTotalAsWritten(totals, field, value))
    ensures field in AddToTotalAsWritten(totals, field, value)
  {
  }

  lemma {:induction false} FieldsStepTotals(s: ReportState, file: Path, c: string, categoryValue: JsValue, fields: seq<ReportField>, target: NumberTarget)
    requires NoNumberTotals(s.totals)
    ensures s.totals.Keys <= FieldsStep(s, file, c, categoryValue, fields, target).totals.Keys
    ensures NoNumberTotals(FieldsStep(s, file, c, categoryValue, fields, target).totals)
    ensures target.TopLevel? ==> AllNumberFieldsIn(fields, FieldsStep(s, file, c, categoryValue, fields, target).totals)
    decreases |fields|
  {
    if fields != [] {
      var init := fields[..|fields| - 1];
      var field := fields[|fields| - 1];
      FieldsStepTotals(s, file, c, categoryValue, init, target);
      var mid := FieldsStep(s, file, c, categoryValue, init, target);
      FieldStepTotals(mid, file, c, categoryValue, field, target);
      AddToTotalKeeps(mid.totals, field.name, OptionalMember(categoryValue, field.name));
    }
  }

  /** Only a number field as written touches the top-level entries. */
  lemma FieldStepTotals(s: ReportState, file: Path, c: string, categoryValue: JsValue, field: ReportField, target: NumberTarget)
    ensures FieldStep(s, file, c, categoryValue, field, target).totals ==
      if field.kind.NumberField? && target.TopLevel? then AddToTotalAsWritten(s.totals, field.name, OptionalMember(categoryValue, field.name))
      else s.totals
  {
  }

  lemma {:induction false} CategoriesStepTotals(s: ReportState, file: Path, json: JsValue, categories: seq<string>, fields: seq<ReportField>, target: NumberTarget)
    requires NoNumberTotals(s.totals)
    ensures CategoriesStep(s, file, json, categories, fields, target).Returns? ==>
      var after := CategoriesStep(s, file, json, categories, fields, target).value.totals;
      s.totals.Keys <= after.Keys && NoNumberTotals(after) &&
      (target.TopLevel? && categories != [] ==> AllNumberFieldsIn(fields, after))
    decreases |categories|
  {
    if categories != [] {
      var init := categories[..|categories| - 1];
      var last := categories[|categories| - 1];
      CategoriesStepTotals(s, file, json, init, fields, target);
      if CategoriesStep(s, file, json, init, fields, target).Returns? && fields != [] && Member(json, last).Returns? {
        var mid := CategoriesStep(s, file, json, init, fields, target).value;
        FieldsStepTotals(mid, file, last, Member(json, last).value, fields, target);
      }
    }
  }

  lemma ScanFileTotals(s: ReportState, env: ReportEnv, file: Path, target: NumberTarget)
    requires NoNumberTotals(s.totals)
    ensures s.totals.Keys <= ScanFile(s, env, file, target).totals.Keys
    ensures NoNumberTotals(ScanFile(s, env, file, target).totals)
    ensures target.TopLevel? && env.categories != [] && Parsed(env, file) ==>
      AllNumberFieldsIn(env.fields, ScanFile(s, env, file, target).totals)
  {
    var read := env.readFile(Join(env.currentDirectory, file));
    if read.Returns? && env.parse(read.value).Returns? {
      var json := env.parse(read.value).value;
      CategoriesStepTotals(s, file, json, env.categories, env.fields, target);
      if Parsed(env, file) {
        CategoriesStepReturns(s, file, json, env.categories, env.fields, target);
      }
    }
  }

  lemma {:induction false} ScanFilesTotals(s: ReportState, env: ReportEnv, files: seq<Path>, target: NumberTarget)
    requires NoNumberTotals(s.totals)
    ensures NoNumberTotals(ScanFiles(s, env, files, target).totals)
    ensures target.TopLevel? && env.categories != [] && ParsedCount(env, files) > 0 ==>
      AllNumberFieldsIn(env.fields, ScanFiles(s, env, files, target).totals)
    decreases |files|
  {
    if files != [] {
      var init := files[..|files| - 1];
      ScanFilesTotals(s, env, init, target);
      ScanFileTotals(ScanFiles(s, env, init, target), env, files[|files| - 1], target);
    }
  }

  /** As written, every number field gets a top-level entry once a summary
      parses, and no top-level entry is ever a number: the sums the command
      sets out to report are NaN (or a string). */
  lemma ReportTotalsNeverNumbers(env: ReportEnv, tree: seq<Node>)
    ensures NoNumberTotals(Report(env, tree).totals)
    ensures env.categories != [] && ParsedCount(env, GetFilesRecursively(env.summaryDir, tree, None)) > 0 ==>
      AllNumberFieldsIn(env.fields, Report(env, tree).totals)
  {
    ScanFilesTotals(InitialState(env), env, GetFilesRecursively(env.summaryDir, tree, None), TopLevel);
  }

  /** One summary `{"c": {"tokens": 5}}` with category `c` and number field
      `tokens`: as written the cell stays 0 and the top-level entry is NaN;
      corrected, the cell holds 5. */
  lemma AsWrittenNumberExample()
    ensures var field := ReportField("tokens", NumberField);
      var summary := Obj(map["c" := Obj(map["tokens" := Num(5)])]);
      var env := ReportEnv(["c"], [field], ["summary"], [], (p: Path) => Returns("{}"), (text: string) => Returns(summary));
      var s := InitialState(env);
      var asWritten := ScanFile(s, env, ["summary", "s.json"], TopLevel);
      var corrected := ScanFile(s, env, ["summary", "s.json"], InCell);
      CellAt(asWritten.result, "c", "tokens") == Some(Count(0)) && asWritten.totals == map["tokens" := NaN] &&
      asWritten.errors == map[] &&
      CellAt(corrected.result, "c", "tokens") == Some(Count(5)) && corrected.totals == map[]
  {
    var field := ReportField("tokens", NumberField);
    assert [field][..0] == [];
    assert ["c"][..0] == [];
  }

  // ---------------------------------------------------------------------
  // The error messages

  function MessagesOf(errors: ErrorMap, file: Path): seq<string> {
    if file in errors then errors[file] else []
  }

  /** `after` only adds messages, at the end, for the files in `touched`. */
  ghost predicate OnlyAppended(before: ErrorMap, after: ErrorMap, touched: set<Path>) {
    (forall p | p in before :: p in after) &&
    (forall p | p in after :: p in before || p in touched) &&
    (forall p :: MessagesOf(before, p) <= MessagesOf(after, p)) &&
    (forall p | p !in touched :: MessagesOf(after, p) == MessagesOf(before, p))
  }

  lemma OnlyAppendedChain(a: ErrorMap, b: ErrorMap, c: ErrorMap, t1: set<Path>, t2: set<Path>)
    requires OnlyAppended(a, b, t1) && OnlyAppended(b, c, t2)
    ensures OnlyAppended(a, c, t1 + t2)
  {
    forall p ensures MessagesOf(a, p) <= MessagesOf(c, p) {
      assert MessagesOf(a, p) <= MessagesOf(b, p) <= MessagesOf(c, p);
    }
  }

  lemma {:induction false} FieldsStepAppends(s: ReportState, file: Path, c: string, categoryValue: JsValue, fields: seq<ReportField>, target: NumberTarget)
    ensures OnlyAppended(s.errors, FieldsStep(s, file, c, categoryValue, fields, target).errors, {file})
    decreases |fields|
  {
    if fields != [] {
      var mid := FieldsStep(s, file, c, categoryValue, fields[..|fields| - 1], target);
      FieldsStepAppends(s, file, c, categoryValue, fields[..|fields| - 1], target);
      OnlyAppendedChain(s.errors, mid.errors, FieldStep(mid, file, c, categoryValue, fields[|fields| - 1], target).errors, {file}, {file});
    }
  }

  lemma {:induction false} CategoriesStepAppends(s: ReportState, file: Path, json: JsValue, categories: seq<string>, fields: seq<ReportField>, target: NumberTarget)
    ensures CategoriesStep(s, file, json, categories, fields, target).Returns? ==>
      OnlyAppended(s.errors, CategoriesStep(s, file, json, categories, fields, target).value.errors, {file})
    decreases |categories|
  {
    if categories != [] {
      var init := categories[..|categories| - 1];
      var last := categories[|categories| - 1];
      CategoriesStepAppends(s, file, json, init, fields, target);
      if CategoriesStep(s, file, json, init, fields, target).Returns? && fields != [] && Member(json, last).Returns? {
        var mid := CategoriesStep(s, file, json, init, fields, target).value;
        FieldsStepAppends(mid, file, last, Member(json, last).value, fields, target);
        OnlyAppendedChain(s.errors, mid.errors, FieldsStep(mid, file, last, Member(json, last).value, fields, target).errors, {file}, {file});
      }
    }
  }

  lemma ScanFileAppends(s: ReportState, env: ReportEnv, file: Path, target: NumberTarget)
    ensures OnlyAppended(s.errors, ScanFile(s, env, file, target).errors, {file})
  {
    var read := env.readFile(Join(env.currentDirectory, file));
    if read.Returns? && env.parse(read.value).Returns? {
      CategoriesStepAppends(s, file, env.parse(read.value).value, env.categories, env.fields, target);
    }
  }

  lemma {:induction false} ScanFilesAppends(s: ReportState, env: ReportEnv, files: seq<Path>, target: NumberTarget)
    ensures OnlyAppended(s.errors, ScanFiles(s, env, files, target).errors, set p | p in files)
    decreases |files|
  {
    if files == [] {
      assert OnlyAppended(s.errors, s.errors, {});
    } else {
      var init := files[..|files| - 1];
      var last := files[|files| - 1];
      ScanFilesAppends(s, env, init, target);
      var mid := ScanFiles(s, env, init, target);
      ScanFileAppends(mid, env, last, target);
      OnlyAppendedChain(s.errors, mid.errors, ScanFile(mid, env, last, target).errors, set p | p in init, {last});
      assert (set p | p in init) + {last} == set p | p in files;
    }
  }

  /** Only the summary files that were walked have messages. */
  lemma ReportErrorsAreWalkedFiles(env: ReportEnv, tree: seq<Node>, target: NumberTarget)
    ensures forall p | p in ReportWith(env, tree, target).errors :: p in GetFilesRecursively(env.summaryDir, tree, None)
  {
    ScanFilesAppends(InitialState(env), env, GetFilesRecursively(env.summaryDir, tree, None), target);
  }
}
