/** `main` of wtu.py: the configured task descriptors are validated into a schedule, and every
    input record with a non-empty relation is run through the scheduled tasks in order; the
    annotated table is output only when no task returned a falsy value. */
module Pipeline {
  import opened Common
  import opened Annotations
  import opened Tables
  import LiteralNormalization
  import EntityLinking

  // ---------------------------------------------------------------- task descriptors

  /** An entry of a configured task descriptor: a task name or an options object. */
  datatype Item = Name(name: string) | Options(options: map<string, string>)

  /** A validated descriptor: the class name of a WTU task and the keyword arguments it is built with. */
  datatype Scheduled = Scheduled(name: string, options: map<string, string>)

  /** `tasks_available`: the WTU task classes `main` knows by name. */
  const TaskNames: set<string> := {"LanguageDetection", "LiteralNormalization", "EntityLinking"}

  /** The keyword parameters of each task class's constructor: `LanguageDetection(top_n=3)`,
      `LiteralNormalization()` and `EntityLinking(backend, top_n=3)`. */
  function Parameters(name: string): set<string>
  {
    if name == "LanguageDetection" then {"top_n"}
    else if name == "EntityLinking" then {"backend", "top_n"}
    else {}
  }

  /** The parameters without a default value. */
  function RequiredParameters(name: string): set<string>
  {
    if name == "EntityLinking" then {"backend"} else {}
  }

  /** `tasks_available[name](**options)`: a keyword the constructor does not take raises
      TypeError, and so does a missing required one; unexpected keywords are reported first. */
  function Construct(name: string, options: map<string, string>): (r: Result<Scheduled>)
    ensures r.Ok? <==> options.Keys <= Parameters(name) && RequiredParameters(name) <= options.Keys
    ensures r.Ok? ==> r.value == Scheduled(name, options)
    ensures r.Err? ==> r.error.TypeError?
  {
    if !(options.Keys <= Parameters(name)) then Err(TypeError("unexpected keyword argument"))
    else if !(RequiredParameters(name) <= options.Keys) then Err(TypeError("missing required argument 'backend'"))
    else Ok(Scheduled(name, options))
  }

  /** One descriptor: a length outside 1..2 aborts with "Invalid task"; a lone name is given an
      empty options object; the name is then looked up (an unknown one raises KeyError) and the
      options are passed as keyword arguments (anything but an object raises TypeError). */
  function Describe(d: seq<Item>): Result<Scheduled>
  {
    if !(1 <= |d| <= 2) then Err(InvalidTask(|d|))
    else
      var full := if |d| < 2 then d + [Options(map[])] else d;
      match full[0]
      case Options(_) => Err(TypeError("unhashable type: 'dict'"))
      case Name(n) =>
        if n !in TaskNames then Err(KeyError(n))
        else
          match full[1]
          case Name(_) => Err(TypeError("argument after ** must be a mapping"))
          case Options(o) => Construct(n, o)
  }

  /** A two-element descriptor is scheduled exactly when it names a known task and its options
      are keyword arguments that task's constructor takes, including every required one. */
  lemma DescribeAccepts(n: string, o: map<string, string>)
    ensures Describe([Name(n), Options(o)]).Ok? <==>
      n in TaskNames && o.Keys <= Parameters(n) && RequiredParameters(n) <= o.Keys
    ensures Describe([Name(n), Options(o)]).Ok? ==> Describe([Name(n), Options(o)]).value == Scheduled(n, o)
  {
  }

  /** The descriptor loop over `config['tasks']`: the schedule in configuration order, or the
      first descriptor's failure. */
  function Schedule(ds: seq<seq<Item>>): Result<seq<Scheduled>>
    decreases |ds|
  {
    if ds == [] then Ok([])
    else
      match Schedule(ds[..|ds| - 1])
      case Err(e) => Err(e)
      case Ok(s) =>
        match Describe(ds[|ds| - 1])
        case Err(e) => Err(e)
        case Ok(x) => Ok(s + [x])
  }

  /** "Invalid task" is raised exactly for descriptors of length 0 or more than 2. */
  lemma InvalidLength(d: seq<Item>)
    ensures (Describe(d).Err? && Describe(d).error.InvalidTask?) <==> (|d| == 0 || |d| > 2)
  {
  }

  /** A one-element descriptor behaves as if it had been given an empty options object. */
  lemma LoneNamePadded(d: seq<Item>)
    requires |d| == 1
    ensures Describe(d) == Describe(d + [Options(map[])])
  {
    assert (d + [Options(map[])])[0] == d[0];
  }

  /** A task name alone is scheduled with no options when its constructor needs no argument. */
  lemma LoneKnownName(n: string)
    requires n in TaskNames && n != "EntityLinking"
    ensures Describe([Name(n)]) == Ok(Scheduled(n, map[]))
  {
  }

  /** `["EntityLinking"]` alone raises TypeError: its constructor needs a `backend`. */
  lemma LoneEntityLinkingRaises()
    ensures Describe([Name("EntityLinking")]).Err?
    ensures Describe([Name("EntityLinking")]).error.TypeError?
  {
  }

  /** The schedule exists exactly when every descriptor is valid; it then lists them in order. */
  lemma {:induction false} ScheduleInOrder(ds: seq<seq<Item>>)
    ensures Schedule(ds).Ok? <==> forall i :: 0 <= i < |ds| ==> Describe(ds[i]).Ok?
    ensures Schedule(ds).Ok? ==>
      |Schedule(ds).value| == |ds| && (forall i :: 0 <= i < |ds| ==> Schedule(ds).value[i] == Describe(ds[i]).value)
    decreases |ds|
  {
    if ds != [] {
      var n := |ds| - 1;
      ScheduleInOrder(ds[..n]);
      assert forall i :: 0 <= i < n ==> ds[..n][i] == ds[i];
    }
  }

  /** A failing schedule fails with the error of the first invalid descriptor. */
  lemma {:induction false} ScheduleFirstError(ds: seq<seq<Item>>)
    requires Schedule(ds).Err?
    ensures exists i ::
      && 0 <= i < |ds|
      && Describe(ds[i]) == Err(Schedule(ds).error)
      && (forall j :: 0 <= j < i ==> Describe(ds[j]).Ok?)
    decreases |ds|
  {
    var n := |ds| - 1;
    if Schedule(ds[..n]).Err? {
      ScheduleFirstError(ds[..n]);
      var i :| 0 <= i < n && Describe(ds[..n][i]) == Err(Schedule(ds[..n]).error)
        && forall j :: 0 <= j < i ==> Describe(ds[..n][j]).Ok?;
      assert ds[..n][i] == ds[i];
      assert forall j :: 0 <= j < i ==> ds[..n][j] == ds[j];
    } else {
      ScheduleInOrder(ds[..n]);
      assert forall j :: 0 <= j < n ==> ds[..n][j] == ds[j];
    }
  }

  /** The descriptor loop of `main`, padding a lone name with `{}` before unpacking it. */
  method ScheduleTasks(config: seq<seq<Item>>) returns (r: Result<seq<Scheduled>>)
    ensures r == Schedule(config)
  {
    var scheduled: seq<Scheduled> := [];
    var i := 0;
    while i < |config|
      invariant 0 <= i <= |config|
      invariant Schedule(config[..i]) == Ok(scheduled)
    {
      assert config[..i + 1][..i] == config[..i];
      var d := config[i];
      if !(1 <= |d| <= 2) {
        ScheduleStops(config, i);
        return Err(InvalidTask(|d|));
      }
      if |d| < 2 {
        d := d + [Options(map[])];
      }
      var task := DescribeFull(d);
      PaddingKeepsMeaning(config[i]);
      if task.Err? {
        ScheduleStops(config, i);
        return Err(task.error);
      }
      scheduled := scheduled + [task.value];
      i := i + 1;
    }
    assert config[..i] == config;
    r := Ok(scheduled);
  }

  /** Unpacking a padded descriptor `task_name, task_args` and building the described task. */
  method DescribeFull(d: seq<Item>) returns (r: Result<Scheduled>)
    requires |d| == 2
    ensures r == Describe(d)
  {
    var (taskName, taskArgs) := (d[0], d[1]);
    if !taskName.Name? {
      return Err(TypeError("unhashable type: 'dict'"));
    }
    if taskName.name !in TaskNames {
      return Err(KeyError(taskName.name));
    }
    if !taskArgs.Options? {
      return Err(TypeError("argument after ** must be a mapping"));
    }
    r := Construct(taskName.name, taskArgs.options);
  }

  /** Padding a valid-length descriptor does not change what it describes. */
  lemma PaddingKeepsMeaning(d: seq<Item>)
    requires 1 <= |d| <= 2
    ensures Describe(d) == Describe(if |d| < 2 then d + [Options(map[])] else d)
  {
    if |d| == 1 {
      LoneNamePadded(d);
    }
  }

  /** A descriptor that fails ends the descriptor loop with its failure. */
  lemma {:induction false} ScheduleStops(ds: seq<seq<Item>>, i: nat)
    requires i < |ds| && Schedule(ds[..i]).Ok? && Describe(ds[i]).Err?
    ensures Schedule(ds) == Err(Describe(ds[i]).error)
    decreases |ds|
  {
    var n := |ds| - 1;
    if i < n {
      assert ds[..n][..i] == ds[..i];
      assert ds[..n][i] == ds[i];
      ScheduleStops(ds[..n], i);
    } else {
      assert ds[..n] == ds[..i];
    }
  }

  // ---------------------------------------------------------------- running scheduled tasks

  /** A constructed task. LanguageDetection ranks languages with nltk's tokenizer and stop-word
      lists, which are not part of this model: the annotations it appends are given with it. */
  datatype Task =
    | DetectLanguage(detected: seq<Annotation>)
    | NormalizeLiterals
    | LinkEntities(index: EntityLinking.Index, topN: int)

  /** `LanguageDetection.run`: appends to the table's own list and, having no `return`, gives
      `None`, which is falsy. */
  method RunLanguageDetection(t: Table, detected: seq<Annotation>) returns (truthy: bool)
    modifies t
    ensures !truthy
    ensures t.annotations == AppendTo(old(t.annotations), Key(Whole), detected)
  {
    t.Append(Whole, detected);
    truthy := false;
  }

  /** What a task's `run` can give: `True` from LiteralNormalization, `None` from
      LanguageDetection, and `True` or an exception from EntityLinking. */
  predicate MayReturn(task: Task, out: Result<bool>)
  {
    match task
    case DetectLanguage(_) => out == Ok(false)
    case NormalizeLiterals => out == Ok(true)
    case LinkEntities(_, _) => out != Ok(false)
  }

  /** A grid whose columns are no shorter than the first, as `Table` requires of its cells. */
  predicate Rectangular(relation: seq<seq<string>>)
  {
    |relation| > 0 && forall c :: 0 <= c < |relation| ==> |relation[0]| <= |relation[c]|
  }

  /** The contents of a rectangular grid's cells, in `cells()` order. */
  function Contents(relation: seq<seq<string>>): (contents: seq<string>)
    requires Rectangular(relation)
  {
    GridContents(relation, |relation|, |relation[0]|)
  }

  /** What LiteralNormalization and EntityLinking make of one cell's content. */
  function CellStep(task: Task): string -> Result<seq<Annotation>>
    requires !task.DetectLanguage?
  {
    if task.NormalizeLiterals? then LiteralNormalization.Normalized else EntityLinking.Linker(task.index, task.topN)
  }

  /** The first failure among `outs`, if any. */
  function FirstFailure(outs: seq<Result<seq<Annotation>>>): (e: Option<Error>)
    ensures e.None? <==> forall i :: 0 <= i < |outs| ==> outs[i].Ok?
    ensures e.Some? ==> exists i :: 0 <= i < |outs| && outs[i] == Err(e.value) && forall j :: 0 <= j < i ==> outs[j].Ok?
  {
    if outs == [] then None
    else if outs[0].Err? then Some(outs[0].error)
    else
      var e := FirstFailure(outs[1..]);
      assert forall i :: 1 <= i < |outs| ==> outs[i] == outs[1..][i - 1];
      e
  }

  /** The failure of the first step that raises is the first failure. */
  lemma FirstFailureAt(outs: seq<Result<seq<Annotation>>>, k: nat)
    requires k < |outs| && outs[k].Err? && forall j :: 0 <= j < k ==> outs[j].Ok?
    ensures FirstFailure(outs) == Some(outs[k].error)
  {
    var i :| 0 <= i < |outs| && outs[i] == Err(FirstFailure(outs).value) && forall j :: 0 <= j < i ==> outs[j].Ok?;
    assert i == k;
  }

  /** No cell content makes a cell task raise (only EntityLinking can). */
  predicate Succeeds(task: Task, contents: seq<string>)
  {
    !task.DetectLanguage? ==> forall i :: 0 <= i < |contents| ==> CellStep(task)(contents[i]).Ok?
  }

  /** The annotation map a task leaves behind when it raises nothing, for a table whose cells,
      in `cells()` order, have `contents` and `keys`: LanguageDetection appends its annotations
      to the table's list, the others append each cell's outcome to the cell. */
  function TaskEffect(task: Task, contents: seq<string>, keys: seq<string>, m: Store): Store
    requires |keys| == |contents| && Succeeds(task, contents)
  {
    if task.DetectLanguage? then AppendTo(m, Key(Whole), task.detected)
    else AppendAll(m, keys, Values(Outcomes(CellStep(task), contents)))
  }

  /** A cell task that raises nothing extends each cell by what it makes of the cell's content
      and leaves every other key as it was. */
  lemma TaskEffectOnCells(task: Task, relation: seq<seq<string>>, m: Store)
    requires Rectangular(relation) && !task.DetectLanguage?
    requires Succeeds(task, GridContents(relation, |relation|, |relation[0]|))
    ensures CellsAnnotated(m, TaskEffect(task, GridContents(relation, |relation|, |relation[0]|), CellKeys(|relation|, |relation[0]|), m),
                           relation, |relation|, |relation[0]|, CellStep(task))
  {
    var contents := GridContents(relation, |relation|, |relation[0]|);
    CellFoldEffect(m, relation, |relation|, |relation[0]|, CellStep(task), contents);
  }

  /** None of `tasks` raises on the cell contents. */
  predicate AllSucceed(tasks: seq<Task>, contents: seq<string>)
  {
    forall i :: 0 <= i < |tasks| ==> Succeeds(tasks[i], contents)
  }

  /** The map after each of `tasks`, in order, raised nothing. */
  function Effects(tasks: seq<Task>, contents: seq<string>, keys: seq<string>, m: Store): Store
    requires |keys| == |contents| && AllSucceed(tasks, contents)
    decreases |tasks|
  {
    if tasks == [] then m
    else TaskEffect(tasks[|tasks| - 1], contents, keys, Effects(tasks[..|tasks| - 1], contents, keys, m))
  }

  /** Task `i` is the first of `tasks` to raise on cells with `contents`, and raises `e`: the tasks
      before it are cell tasks that raise nothing, and `e` is its failure on the first cell that
      makes it raise. */
  predicate FirstRaise(tasks: seq<Task>, contents: seq<string>, i: nat, e: Error)
  {
    && i < |tasks|
    && (forall j :: 0 <= j < i ==> !tasks[j].DetectLanguage? && Succeeds(tasks[j], contents))
    && !tasks[i].DetectLanguage?
    && FirstFailure(Outcomes(CellStep(tasks[i]), contents)) == Some(e)
  }

  /** `task.run(table)`. */
  method RunTask(t: Table, task: Task) returns (out: Result<bool>)
    requires t.Valid()
    modifies t
    ensures MayReturn(task, out)
    ensures !task.DetectLanguage? ==> (out == Ok(true) <==> Succeeds(task, t.CellContents()))
    ensures out.Err? ==> !task.DetectLanguage? && FirstFailure(Outcomes(CellStep(task), t.CellContents())) == Some(out.error)
    ensures out == Ok(true) ==>
      && Succeeds(task, t.CellContents())
      && t.annotations == TaskEffect(task, t.CellContents(), CellKeys(t.numCols, t.numRows), old(t.annotations))
  {
    match task {
      case DetectLanguage(detected) =>
        var truthy := RunLanguageDetection(t, detected);
        out := Ok(truthy);
      case NormalizeLiterals =>
        var ok := LiteralNormalization.Run(t);
        out := Ok(ok);
      case LinkEntities(index, topN) =>
        var linked, k := EntityLinking.Run(t, index, topN);
        if linked.Err? {
          FirstFailureAt(Outcomes(CellStep(task), t.CellContents()), k);
        }
        out := linked;
    }
  }

  /** The `for ... else` over the values scheduled tasks return, in order: the first falsy value or
      exception ends the loop and suppresses the output; a loop that runs out outputs. */
  function ForElse(outs: seq<Result<bool>>): Result<bool>
  {
    if outs == [] then Ok(true)
    else if outs[0] != Ok(true) then outs[0]
    else ForElse(outs[1..])
  }

  /** The table is output exactly when every task returned a truthy value. */
  lemma {:induction false} ForElseOutputs(outs: seq<Result<bool>>)
    ensures ForElse(outs) == Ok(true) <==> forall i :: 0 <= i < |outs| ==> outs[i] == Ok(true)
  {
    if outs != [] {
      ForElseOutputs(outs[1..]);
      assert forall i :: 1 <= i < |outs| ==> outs[i] == outs[1..][i - 1];
    }
  }

  /** Otherwise the loop ends with the first value that is not `True`. */
  lemma {:induction false} ForElseFirst(outs: seq<Result<bool>>)
    requires ForElse(outs) != Ok(true)
    ensures exists i :: 0 <= i < |outs| && outs[i] == ForElse(outs) && forall j :: 0 <= j < i ==> outs[j] == Ok(true)
  {
    if outs[0] == Ok(true) {
      ForElseFirst(outs[1..]);
      var i :| 0 <= i < |outs[1..]| && outs[1..][i] == ForElse(outs[1..])
        && forall j :: 0 <= j < i ==> outs[1..][j] == Ok(true);
      assert outs[i + 1] == outs[1..][i];
      assert forall j :: 1 <= j < i + 1 ==> outs[j] == outs[1..][j - 1];
    }
  }

  /** `outs` are the values returned by a prefix of `tasks`, each one a value its task can give,
      every one but the last truthy, and the prefix ends early only at a falsy value or exception. */
  ghost predicate RanUntilFalsy(tasks: seq<Task>, outs: seq<Result<bool>>)
  {
    && |outs| <= |tasks|
    && (forall i :: 0 <= i < |outs| ==> MayReturn(tasks[i], outs[i]))
    && (forall i :: 0 <= i < |outs| - 1 ==> outs[i] == Ok(true))
    && (|outs| < |tasks| ==> outs != [] && outs[|outs| - 1] != Ok(true))
  }

  /** The loop over scheduled tasks in `main`: each scheduled task runs in order until one returns a falsy value
      or raises; `r` is what the `for ... else` makes of the values returned. */
  method RunTasks(t: Table, tasks: seq<Task>) returns (r: Result<bool>, ghost outs: seq<Result<bool>>)
    requires t.Valid()
    modifies t
    ensures RanUntilFalsy(tasks, outs) && r == ForElse(outs)
    ensures (forall i :: 0 <= i < |tasks| ==> !tasks[i].DetectLanguage?) && AllSucceed(tasks, t.CellContents()) ==> r == Ok(true)
    ensures r.Err? ==> exists i :: FirstRaise(tasks, t.CellContents(), i, r.error)
    ensures r == Ok(true) ==>
      && AllSucceed(tasks, t.CellContents())
      && t.annotations == Effects(tasks, t.CellContents(), CellKeys(t.numCols, t.numRows), old(t.annotations))
  {
    outs := [];
    ghost var contents, keys, m0 := t.CellContents(), CellKeys(t.numCols, t.numRows), t.annotations;
    var i := 0;
    while i < |tasks|
      invariant 0 <= i <= |tasks| && |outs| == i
      invariant forall j :: 0 <= j < i ==> outs[j] == Ok(true) && MayReturn(tasks[j], outs[j])
      invariant ForElse(outs) == Ok(true)
      invariant AllSucceed(tasks[..i], contents)
      invariant t.annotations == Effects(tasks[..i], contents, keys, m0)
    {
      var out := RunTask(t, tasks[i]);
      ForElseSnoc(outs, out);
      if out != Ok(true) {
        if out.Err? {
          RaisedFirst(tasks, outs, contents, out.error);
        }
        return out, outs + [out];
      }
      TruthySnoc(tasks, outs);
      outs := outs + [out];
      EffectsNext(tasks, i, contents, keys, m0);
      i := i + 1;
    }
    assert tasks[..i] == tasks;
    r := Ok(true);
  }

  /** A task that raises after truthy values from the tasks before it is the first to raise. */
  lemma RaisedFirst(tasks: seq<Task>, outs: seq<Result<bool>>, contents: seq<string>, e: Error)
    requires |outs| < |tasks| && AllSucceed(tasks[..|outs|], contents)
    requires forall j :: 0 <= j < |outs| ==> outs[j] == Ok(true) && MayReturn(tasks[j], outs[j])
    requires !tasks[|outs|].DetectLanguage? && FirstFailure(Outcomes(CellStep(tasks[|outs|]), contents)) == Some(e)
    ensures FirstRaise(tasks, contents, |outs|, e)
  {
    assert forall j :: 0 <= j < |outs| ==> tasks[..|outs|][j] == tasks[j];
  }

  /** One more truthy value keeps every value so far truthy and one its task can give. */
  lemma TruthySnoc(tasks: seq<Task>, outs: seq<Result<bool>>)
    requires |outs| < |tasks| && MayReturn(tasks[|outs|], Ok(true))
    requires forall j :: 0 <= j < |outs| ==> outs[j] == Ok(true) && MayReturn(tasks[j], outs[j])
    ensures forall j :: 0 <= j <= |outs| ==> (outs + [Ok(true)])[j] == Ok(true) && MayReturn(tasks[j], (outs + [Ok(true)])[j])
  {
  }

  /** Running one more task applies its effect to the map the earlier ones left. */
  lemma EffectsNext(tasks: seq<Task>, i: nat, contents: seq<string>, keys: seq<string>, m: Store)
    requires |keys| == |contents| && i < |tasks| && AllSucceed(tasks[..i], contents) && Succeeds(tasks[i], contents)
    ensures AllSucceed(tasks[..i + 1], contents)
    ensures Effects(tasks[..i + 1], contents, keys, m) == TaskEffect(tasks[i], contents, keys, Effects(tasks[..i], contents, keys, m))
  {
    var p := tasks[..i + 1];
    assert p[..i] == tasks[..i] && p[i] == tasks[i];
    assert forall j :: 0 <= j < i ==> p[j] == tasks[..i][j];
  }

  /** Extending a loop that has not ended by one more value. */
  lemma {:induction false} ForElseSnoc(outs: seq<Result<bool>>, out: Result<bool>)
    requires ForElse(outs) == Ok(true)
    ensures ForElse(outs + [out]) == out
  {
    if outs != [] {
      assert (outs + [out])[1..] == outs[1..] + [out];
      ForElseSnoc(outs[1..], out);
    }
  }

  /** A schedule containing LanguageDetection never outputs a table, whatever the other tasks do. */
  lemma LanguageDetectionSuppressesOutput(tasks: seq<Task>, outs: seq<Result<bool>>, k: nat)
    requires RanUntilFalsy(tasks, outs) && k < |tasks| && tasks[k].DetectLanguage?
    ensures ForElse(outs) != Ok(true)
  {
    ForElseOutputs(outs);
    if |outs| == |tasks| {
      assert !MayReturn(tasks[k], Ok(true));
    }
  }

  /** A schedule of LiteralNormalization tasks runs all of them and outputs. */
  lemma NormalizationOnlyOutputs(tasks: seq<Task>, outs: seq<Result<bool>>)
    requires RanUntilFalsy(tasks, outs) && forall i :: 0 <= i < |tasks| ==> tasks[i].NormalizeLiterals?
    ensures |outs| == |tasks| && ForElse(outs) == Ok(true)
  {
    ForElseOutputs(outs);
  }

  // ---------------------------------------------------------------- one input line

  /** A line of standard input: text that is not JSON, or a record with its optional fields. */
  datatype Line =
    | Malformed
    | Record(relation: Option<seq<seq<string>>>, annotations: Option<Store>, headerRowIndex: Option<int>)

  /** A printed record: the relation and the dumped annotation map. */
  datatype Output = Output(relation: seq<seq<string>>, annotations: Store)

  /** The first column, from `c` on, shorter than the first one: `Table` takes its row count from
      the first column, so the cells of such a column run out before the table's rows do. */
  function FirstShortColumn(relation: seq<seq<string>>, c: nat): (r: Option<nat>)
    requires |relation| > 0
    ensures r.None? <==> forall j :: c <= j < |relation| ==> |relation[0]| <= |relation[j]|
    ensures r.Some? ==> c <= r.value < |relation| && |relation[r.value]| < |relation[0]|
    ensures r.Some? ==> forall j :: c <= j < r.value ==> |relation[0]| <= |relation[j]|
    decreases |relation| - c
  {
    if c >= |relation| then None
    else if |relation[c]| < |relation[0]| then Some(c)
    else FirstShortColumn(relation, c + 1)
  }

  /** The contents of the cells `cells()` visits before the first missing one, in its order:
      every cell of the columns before the first short column, then that column's own entries. */
  function BeforeMissing(relation: seq<seq<string>>): (b: seq<string>)
    requires |relation| > 0 && FirstShortColumn(relation, 0).Some?
    ensures var s, n := FirstShortColumn(relation, 0).value, |relation[0]|;
      && |b| == s * n + |relation[s]|
      && (forall i :: 0 <= i < s * n ==> var g := CellRegions(s, n)[i]; b[i] == relation[g.col][g.row])
      && (forall r :: 0 <= r < |relation[s]| ==> b[s * n + r] == relation[s][r])
  {
    var s := FirstShortColumn(relation, 0).value;
    GridContents(relation, s, |relation[0]|) + relation[s]
  }

  /** The exception the first scheduled task raises on a grid with a short column: LanguageDetection
      reads every cell before it looks at any, so it meets the missing cell first; the cell tasks
      read the cells one by one, so they raise the first failure of a cell before the missing one,
      or IndexError at the missing cell when there is none. */
  function ShortColumnError(relation: seq<seq<string>>, task: Task): (e: Error)
    requires |relation| > 0 && FirstShortColumn(relation, 0).Some?
    ensures var missing := IndexError(|relation[FirstShortColumn(relation, 0).value]|);
      && (task.DetectLanguage? || task.NormalizeLiterals? ==> e == missing)
      && (task.LinkEntities? ==>
            var outs := Outcomes(CellStep(task), BeforeMissing(relation));
            && ((forall i :: 0 <= i < |outs| ==> outs[i].Ok?) ==> e == missing)
            && (e != missing ==> exists i :: 0 <= i < |outs| && outs[i] == Err(e) && forall j :: 0 <= j < i ==> outs[j].Ok?))
  {
    var missing := IndexError(|relation[FirstShortColumn(relation, 0).value]|);
    if task.DetectLanguage? then missing
    else
      var outs := Outcomes(CellStep(task), BeforeMissing(relation));
      if task.NormalizeLiterals? then
        assert forall i :: 0 <= i < |outs| ==> outs[i].Ok?;
        missing
      else match FirstFailure(outs)
        case None => missing
        case Some(e) => e
  }

  /** A link count that does not parse fails the whole line before the missing cell is reached. */
  lemma LinkFailureBeforeMissingCell()
    ensures ShortColumnError([["x"], []], LinkEntities(map["x" := [("u", "zz")]], 3)).ValueError?
  {
    var relation: seq<seq<string>> := [["x"], []];
    var task := LinkEntities(map["x" := [("u", "zz")]], 3);
    assert BeforeMissing(relation) == ["x"];
  }

  /** The annotation map a record starts with. */
  function Initial(annotations: Option<Store>): Store
  {
    if annotations.Some? then annotations.value else map[]
  }

  /** `'relation' in table_data and len(table_data['relation']) > 0`. */
  predicate HasRelation(line: Line)
  {
    line.Record? && line.relation.Some? && line.relation.value != []
  }

  /** The body of the input loop for one line: malformed JSON and records without a non-empty
      `relation` are skipped; otherwise the scheduled tasks run and the table is output when the
      `for ... else` allows it. An exception other than a JSON decoding error ends `main`. */
  method ProcessLine(line: Line, tasks: seq<Task>) returns (r: Result<Option<Output>>)
    ensures !HasRelation(line) ==> r == Ok(None)
    ensures r.Ok? && r.value.Some? ==>
      && HasRelation(line)
      && r.value.value.relation == line.relation.value
      && (forall k :: k in r.value.value.annotations ==> r.value.value.annotations[k] != [])
      && (forall i :: 0 <= i < |tasks| ==> !tasks[i].DetectLanguage?)
    ensures HasRelation(line) && tasks == [] ==>
      r == Ok(Some(Output(line.relation.value, Compact(Initial(line.annotations)))))
    ensures HasRelation(line) && tasks != [] && FirstShortColumn(line.relation.value, 0).Some? ==>
      r == Err(ShortColumnError(line.relation.value, tasks[0]))
    ensures r.Ok? && r.value.Some? && tasks != [] ==>
      var rel := line.relation.value;
      && FirstShortColumn(rel, 0).None?
      && AllSucceed(tasks, Contents(rel))
      && r.value.value.annotations
         == Compact(Effects(tasks, Contents(rel), CellKeys(|rel|, |rel[0]|), Initial(line.annotations)))
    ensures HasRelation(line) && FirstShortColumn(line.relation.value, 0).None? ==>
      ((forall i :: 0 <= i < |tasks| ==> tasks[i].NormalizeLiterals?) ==> r.Ok? && r.value.Some?)
    ensures HasRelation(line) && FirstShortColumn(line.relation.value, 0).None? ==>
      var rel := line.relation.value;
      var contents := Contents(rel);
      && ((forall i :: 0 <= i < |tasks| ==> !tasks[i].DetectLanguage?) && AllSucceed(tasks, contents) ==> r.Ok? && r.value.Some?)
      && (r.Err? ==> exists i :: FirstRaise(tasks, contents, i, r.error))
  {
    if !HasRelation(line) {
      return Ok(None);
    }
    var relation := line.relation.value;
    var short := FirstShortColumn(relation, 0);
    if short.Some? {
      if tasks == [] {
        return Ok(Some(Output(relation, Compact(Initial(line.annotations)))));
      }
      return Err(ShortColumnError(relation, tasks[0]));
    }
    var t := new Table(relation, line.annotations, line.headerRowIndex);
    var done, outs := RunTasks(t, tasks);
    if forall i :: 0 <= i < |tasks| ==> tasks[i].NormalizeLiterals? {
      NormalizationOnlyOutputs(tasks, outs);
    }
    if done.Err? {
      return Err(done.error);
    }
    if !done.value {
      return Ok(None);
    }
    forall k | 0 <= k < |tasks| ensures !tasks[k].DetectLanguage? {
      if tasks[k].DetectLanguage? {
        LanguageDetectionSuppressesOutput(tasks, outs, k);
      }
    }
    var dumped, annotations := t.Dump();
    r := Ok(Some(Output(dumped, annotations)));
  }
}
