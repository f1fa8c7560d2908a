/** What the three compile phases of CronnerExtension guarantee together: the
    services a successful loadConfiguration leaves behind, the setup calls
    beforeCompile gives the runner, and when afterCompile adds the panel. */
module CronnerProperties {
  import opened Wrappers
  import opened Values
  import opened Container
  import opened CronnerDI

  // ---------------------------------------------------------------------
  // Service names

  /** The service loadConfiguration registers last, when it registers it. */
  function PanelNames(ext: string, env: Env, config: Config): seq<string>
    requires Bar in config
  {
    if PanelWanted(env, config) then [Prefix(ext, "bar")] else []
  }

  /** Two different local names give two different service names. */
  lemma PrefixInjective(ext: string, a: string, b: string)
    requires a == [] || a[0] != '@'
    requires b == [] || b[0] != '@'
    requires a != b
    ensures Prefix(ext, a) != Prefix(ext, b)
  {
    assert Prefix(ext, a)[|ext| + 1..] == a;
    assert Prefix(ext, b)[|ext| + 1..] == b;
  }

  lemma CoreNamesDistinct(ext: string)
    ensures Distinct(CoreNames(ext))
    ensures Prefix(ext, "bar") !in CoreNames(ext)
  {
    var locals := ["timestampStorage", "criticalSectionDriver", "criticalSection", "runner"];
    forall i, j | 0 <= i < j < 4
      ensures CoreNames(ext)[i] != CoreNames(ext)[j]
    {
      PrefixInjective(ext, locals[i], locals[j]);
    }
    forall i | 0 <= i < 4
      ensures CoreNames(ext)[i] != Prefix(ext, "bar")
    {
      PrefixInjective(ext, locals[i], "bar");
    }
  }

  lemma CoreNamesDifferent(ext: string)
    ensures Prefix(ext, "criticalSectionDriver") != Prefix(ext, "timestampStorage")
    ensures Prefix(ext, "criticalSection") != Prefix(ext, "timestampStorage")
    ensures Prefix(ext, "criticalSection") != Prefix(ext, "criticalSectionDriver")
    ensures Prefix(ext, "runner") != Prefix(ext, "timestampStorage")
    ensures Prefix(ext, "runner") != Prefix(ext, "criticalSectionDriver")
    ensures Prefix(ext, "runner") != Prefix(ext, "criticalSection")
  {
    CoreNamesDistinct(ext);
    var names := CoreNames(ext);
    assert names[1] != names[0] && names[2] != names[0] && names[2] != names[1];
    assert names[3] != names[0] && names[3] != names[1] && names[3] != names[2];
  }

  /** A task's service is never the panel. */
  lemma TaskNameNotPanel(ext: string, env: Env, task: Value)
    requires HasEntity(task)
    ensures TaskName(ext, env, task) != Prefix(ext, "bar")
  {
    var local := "task." + env.md5(TaskKey(env, task));
    assert local[0] == 't';
    PrefixInjective(ext, local, "bar");
  }

  /** TaskNames names the tasks one by one. */
  lemma {:induction false} TaskNamesAt(ext: string, env: Env, tasks: seq<Value>)
    requires forall t :: t in tasks ==> HasEntity(t)
    ensures |TaskNames(ext, env, tasks)| == |tasks|
    ensures forall i :: 0 <= i < |tasks| ==> TaskNames(ext, env, tasks)[i] == TaskName(ext, env, tasks[i])
    decreases |tasks|
  {
    if tasks != [] {
      TaskNamesAt(ext, env, tasks[1..]);
      forall i | 0 < i < |tasks|
        ensures TaskNames(ext, env, tasks)[i] == TaskName(ext, env, tasks[i])
      {
        assert tasks[i] == tasks[1..][i - 1];
      }
    }
  }

  lemma TaskNamesNotPanel(ext: string, env: Env, tasks: seq<Value>)
    requires forall t :: t in tasks ==> HasEntity(t)
    ensures Prefix(ext, "bar") !in TaskNames(ext, env, tasks)
  {
    TaskNamesAt(ext, env, tasks);
    forall i | 0 <= i < |tasks|
      ensures TaskNames(ext, env, tasks)[i] != Prefix(ext, "bar")
    {
      TaskNameNotPanel(ext, env, tasks[i]);
    }
  }

  // ---------------------------------------------------------------------
  // loadConfiguration

  /** The panel and the log field, appended after everything else. */
  lemma LoadPanelShape(g5: Graph, ext: string, env: Env, config: Config)
    requires g5.Valid() && Defaults.Keys <= config.Keys
    requires LoadPanel(g5, ext, env, config).Ok?
    ensures var l := LoadPanel(g5, ext, env, config).value;
      && l.graph.Valid()
      && l.graph.order == g5.order + PanelNames(ext, env, config)
      && (forall n :: n in g5.defs ==> l.graph.defs[n] == g5.defs[n])
      && (PanelWanted(env, config) ==> l.graph.defs[Prefix(ext, "bar")] == PanelDefinition(ext))
      && LogServiceField(config[CronLogService]) == Ok(l.cronLogService)
  {
  }

  /** The stages of a successful loadConfiguration: the option shapes held,
      the fixed services and the task loop completed, and what remains is the
      panel and the log field. */
  lemma LoadConfigSteps(g: Graph, ext: string, env: Env, parameters: map<string, Value>, user: Config)
    requires g.Valid() && LoadConfig(g, ext, env, parameters, user).Ok?
    ensures ShapeError(Merge(user, Defaults)).None?
    ensures CoreServices(g, ext, env, parameters, Merge(user, Defaults)).Ok?
    ensures Merge(user, Defaults)[Tasks].Arr?
    ensures var g4 := CoreServices(g, ext, env, parameters, Merge(user, Defaults)).value;
      && g4.Valid()
      && RegisterTasks(g4, ext, env, Merge(user, Defaults)[Tasks].items).Ok?
      && LoadConfig(g, ext, env, parameters, user)
         == LoadPanel(RegisterTasks(g4, ext, env, Merge(user, Defaults)[Tasks].items).value, ext, env, Merge(user, Defaults))
  {
  }

  /** A successful loadConfiguration appends the storage, the driver, the
      critical section and the runner, then one service per task in task
      order, then the panel when it is wanted, and changes no earlier service. */
  lemma LoadConfigOrder(g: Graph, ext: string, env: Env, parameters: map<string, Value>, user: Config)
    requires g.Valid() && LoadConfig(g, ext, env, parameters, user).Ok?
    ensures Merge(user, Defaults)[Tasks].Arr?
    ensures forall t :: t in Merge(user, Defaults)[Tasks].items ==> HasEntity(t)
    ensures var l := LoadConfig(g, ext, env, parameters, user).value;
      && l.graph.Valid()
      && l.graph.order == g.order + CoreNames(ext) + TaskNames(ext, env, Merge(user, Defaults)[Tasks].items)
                          + PanelNames(ext, env, Merge(user, Defaults))
    ensures var l := LoadConfig(g, ext, env, parameters, user).value;
      forall n :: n in g.defs ==> n in l.graph.defs && l.graph.defs[n] == g.defs[n]
  {
    LoadConfigSteps(g, ext, env, parameters, user);
    var config := Merge(user, Defaults);
    var g4 := CoreServices(g, ext, env, parameters, config).value;
    var g5 := RegisterTasks(g4, ext, env, config[Tasks].items).value;
    RegisterTasksOrder(g4, ext, env, config[Tasks].items);
    RegisterTasksKeepEarlier(g4, ext, env, config[Tasks].items);
    LoadPanelShape(g5, ext, env, config);
  }

  /** After a successful loadConfiguration the runner, every task and, when it
      is wanted, the panel have the definitions built from the configuration. */
  lemma LoadConfigDefinitions(g: Graph, ext: string, env: Env, parameters: map<string, Value>, user: Config)
    requires g.Valid() && LoadConfig(g, ext, env, parameters, user).Ok?
    ensures Merge(user, Defaults)[Tasks].Arr?
    ensures forall t :: t in Merge(user, Defaults)[Tasks].items ==> HasEntity(t)
    ensures var l := LoadConfig(g, ext, env, parameters, user).value;
      Prefix(ext, "runner") in l.graph.defs && l.graph.defs[Prefix(ext, "runner")] == RunnerDefinition(ext, Merge(user, Defaults))
    ensures var l := LoadConfig(g, ext, env, parameters, user).value;
      forall t :: t in Merge(user, Defaults)[Tasks].items ==>
        TaskName(ext, env, t) in l.graph.defs && l.graph.defs[TaskName(ext, env, t)] == TaskDefinition(env, t)
    ensures var l := LoadConfig(g, ext, env, parameters, user).value;
      PanelWanted(env, Merge(user, Defaults)) ==>
        Prefix(ext, "bar") in l.graph.defs && l.graph.defs[Prefix(ext, "bar")] == PanelDefinition(ext)
    ensures var l := LoadConfig(g, ext, env, parameters, user).value;
      LogServiceField(Merge(user, Defaults)[CronLogService]) == Ok(l.cronLogService)
  {
    LoadConfigSteps(g, ext, env, parameters, user);
    var config := Merge(user, Defaults);
    var tasks := config[Tasks].items;
    var g4 := CoreServices(g, ext, env, parameters, config).value;
    var g5 := RegisterTasks(g4, ext, env, tasks).value;
    RegisterTasksKeepEarlier(g4, ext, env, tasks);
    RegisterTasksDefinitions(g4, ext, env, tasks);
    LoadPanelShape(g5, ext, env, config);
    assert Prefix(ext, "runner") in g4.defs by {
      assert g4.order[|g.order| + 3] == Prefix(ext, "runner");
    }
    var l := LoadConfig(g, ext, env, parameters, user).value;
    forall t | t in tasks
      ensures TaskName(ext, env, t) in l.graph.defs && l.graph.defs[TaskName(ext, env, t)] == TaskDefinition(env, t)
    {
      var i :| 0 <= i < |tasks| && tasks[i] == t;
    }
  }

  /** The four fixed services are defined once they are registered. */
  lemma CoreServicesDefined(g: Graph, ext: string, env: Env, parameters: map<string, Value>, config: Config)
    requires g.Valid() && Defaults.Keys <= config.Keys
    requires CoreServices(g, ext, env, parameters, config).Ok?
    ensures forall n :: n in CoreNames(ext) ==> n in CoreServices(g, ext, env, parameters, config).value.defs
  {
    var g4 := CoreServices(g, ext, env, parameters, config).value;
    forall n | n in CoreNames(ext)
      ensures n in g4.defs
    {
      assert n in g4.order;
    }
  }

  /** The task loop and the panel step change none of the fixed services. */
  lemma LoadKeepsCoreServices(g: Graph, ext: string, env: Env, parameters: map<string, Value>, user: Config)
    requires g.Valid() && LoadConfig(g, ext, env, parameters, user).Ok?
    ensures CoreServices(g, ext, env, parameters, Merge(user, Defaults)).Ok?
    ensures var g4 := CoreServices(g, ext, env, parameters, Merge(user, Defaults)).value;
      var l := LoadConfig(g, ext, env, parameters, user).value;
      forall n :: n in g4.defs ==> n in l.graph.defs && l.graph.defs[n] == g4.defs[n]
  {
    LoadConfigSteps(g, ext, env, parameters, user);
    var config := Merge(user, Defaults);
    var g4 := CoreServices(g, ext, env, parameters, config).value;
    RegisterTasksKeepEarlier(g4, ext, env, config[Tasks].items);
    LoadPanelShape(RegisterTasks(g4, ext, env, config[Tasks].items).value, ext, env, config);
  }

  /** After a successful loadConfiguration the timestamp storage and the
      critical-section driver hold the definitions createServiceByConfig
      chose from their options (the driver's lookups seeing the storage
      already registered), and the critical section is built on the driver. */
  lemma LoadConfigFixedServices(g: Graph, ext: string, env: Env, parameters: map<string, Value>, user: Config)
    requires g.Valid() && LoadConfig(g, ext, env, parameters, user).Ok?
    ensures var l := LoadConfig(g, ext, env, parameters, user).value;
      var storage := StorageDefinition(env, g.defs, parameters, Merge(user, Defaults));
      && Prefix(ext, "timestampStorage") in l.graph.defs
      && l.graph.defs[Prefix(ext, "timestampStorage")] == storage
      && Prefix(ext, "criticalSectionDriver") in l.graph.defs
      && l.graph.defs[Prefix(ext, "criticalSectionDriver")]
         == DriverDefinition(env, g.defs[Prefix(ext, "timestampStorage") := storage], parameters, Merge(user, Defaults))
      && Prefix(ext, "criticalSection") in l.graph.defs
      && l.graph.defs[Prefix(ext, "criticalSection")] == CriticalSectionDefinition(ext)
  {
    LoadKeepsCoreServices(g, ext, env, parameters, user);
    CoreServicesDefined(g, ext, env, parameters, Merge(user, Defaults));
  }

  /** The options the runner is built from, after the defaults are merged in:
      the time limit defaults to null, and debugMode has no default. */
  lemma MergedRunnerOptions(user: Config)
    ensures Merge(user, Defaults)[MaxExecutionTime] == if MaxExecutionTime in user then user[MaxExecutionTime] else Null
    ensures EnforceTimeLimit(Merge(user, Defaults)) == if DebugMode in user then !Truthy(user[DebugMode]) else true
  {
    assert DebugMode !in Defaults;
  }

  /** The runner is built from the storage, the critical section, the time
      limit the section gives, and a flag that enforces that limit unless the
      section sets debugMode to something true; with no debugMode key the flag
      is true. */
  lemma RunnerEnforcesTimeLimit(g: Graph, ext: string, env: Env, parameters: map<string, Value>, user: Config)
    requires g.Valid() && LoadConfig(g, ext, env, parameters, user).Ok?
    ensures var defs := LoadConfig(g, ext, env, parameters, user).value.graph.defs;
      && Prefix(ext, "runner") in defs
      && defs[Prefix(ext, "runner")].factory == Some(Statement(RunnerClass, [
           Service(Prefix(ext, "timestampStorage")),
           Service(Prefix(ext, "criticalSection")),
           if MaxExecutionTime in user then user[MaxExecutionTime] else Null,
           Bool(if DebugMode in user then !Truthy(user[DebugMode]) else true)]))
  {
    LoadConfigDefinitions(g, ext, env, parameters, user);
    var config := Merge(user, Defaults);
    MergedRunnerOptions(user);
    assert RunnerDefinition(ext, config).factory == Some(Statement(RunnerClass, [
      Service(Prefix(ext, "timestampStorage")),
      Service(Prefix(ext, "criticalSection")),
      config[MaxExecutionTime],
      Bool(EnforceTimeLimit(config))]));
  }

  /** After a successful loadConfiguration the panel is registered exactly when
      it already was, or when `bar` is true and Tracy's Bar exists. */
  lemma PanelRegistered(g: Graph, ext: string, env: Env, parameters: map<string, Value>, user: Config)
    requires g.Valid() && LoadConfig(g, ext, env, parameters, user).Ok?
    ensures Prefix(ext, "bar") in LoadConfig(g, ext, env, parameters, user).value.graph.defs
            <==> Prefix(ext, "bar") in g.defs || PanelWanted(env, Merge(user, Defaults))
  {
    LoadConfigOrder(g, ext, env, parameters, user);
    var config := Merge(user, Defaults);
    var bar := Prefix(ext, "bar");
    var tasks := TaskNames(ext, env, config[Tasks].items);
    var l := LoadConfig(g, ext, env, parameters, user).value;
    CoreNamesDistinct(ext);
    TaskNamesNotPanel(ext, env, config[Tasks].items);
    var order := g.order + CoreNames(ext) + tasks + PanelNames(ext, env, config);
    assert l.graph.order == order;
    assert bar in order <==> bar in g.order || bar in PanelNames(ext, env, config);
  }

  /** The fixed services register whenever their four names are free. */
  lemma CoreServicesWhenFree(g: Graph, ext: string, env: Env, parameters: map<string, Value>, config: Config)
    requires g.Valid() && Defaults.Keys <= config.Keys
    requires forall n :: n in CoreNames(ext) ==> n !in g.defs
    ensures CoreServices(g, ext, env, parameters, config).Ok?
  {
    var storage, driver := Prefix(ext, "timestampStorage"), Prefix(ext, "criticalSectionDriver");
    var criticalSection, runner := Prefix(ext, "criticalSection"), Prefix(ext, "runner");
    assert storage in CoreNames(ext) && driver in CoreNames(ext);
    assert criticalSection in CoreNames(ext) && runner in CoreNames(ext);
    CoreNamesDifferent(ext);
    var r1 := ResolveService(g, env, parameters, storage, config[TimestampStorage], StorageType,
      DefaultStorageClass, [Str(DefaultStorageDirectory)]);
    var r2 := ResolveService(r1.value, env, parameters, driver, config[CriticalSectionDriver], DriverType,
      DefaultDriverClass, [config[CriticalSectionTempDir]]);
    var r3 := AddService(r2.value, criticalSection, CriticalSectionDefinition(ext));
    assert r3.Ok?;
    var r4 := AddService(r3.value, runner, RunnerDefinition(ext, config));
    assert r4.Ok?;
  }

  /** The defaults pass the option checks. */
  lemma DefaultsPassChecks()
    ensures Merge(map[], Defaults) == Defaults
    ensures ShapeError(Defaults).None?
  {
    assert FirstMismatch(Defaults, ShapeChecks[3..]) == None by {
      assert HasType(Defaults[CriticalSectionDriver], NullType);
    }
    assert FirstMismatch(Defaults, ShapeChecks[2..]) == None by {
      assert ShapeChecks[2..][1..] == ShapeChecks[3..];
      assert HasType(Defaults[CriticalSectionTempDir], StringType);
    }
    assert FirstMismatch(Defaults, ShapeChecks[1..]) == None by {
      assert ShapeChecks[1..][1..] == ShapeChecks[2..];
      assert HasType(Defaults[MaxExecutionTime], NullType);
    }
    assert HasType(Defaults[TimestampStorage], NullType);
  }

  /** Under the defaults the panel is wanted exactly when Tracy's Bar exists,
      since `%debugMode%` is a true string, and no log service is set. */
  lemma DefaultsPanel(g5: Graph, ext: string, env: Env)
    requires g5.Valid()
    ensures LoadPanel(g5, ext, env, Defaults).Ok? <==> !(TracyBarClass in env.classes && Prefix(ext, "bar") in g5.defs)
    ensures LoadPanel(g5, ext, env, Defaults).Ok? ==> LoadPanel(g5, ext, env, Defaults).value.cronLogService.None?
  {
    assert PanelWanted(env, Defaults) <==> TracyBarClass in env.classes by {
      assert StringTruthy("%debugMode%");
    }
    assert Defaults[CronLogService] == Null;
  }

  /** loadConfiguration on an empty section: the fixed services, an empty
      task loop, then the panel and the log field, all from the defaults. */
  lemma LoadDefaults(g: Graph, ext: string, env: Env, parameters: map<string, Value>)
    requires g.Valid()
    ensures LoadConfig(g, ext, env, parameters, map[])
         == match CoreServices(g, ext, env, parameters, Defaults)
            case Err(e) => Err(e)
            case Ok(g4) => LoadPanel(g4, ext, env, Defaults)
  {
    DefaultsPassChecks();
    var r4 := CoreServices(g, ext, env, parameters, Defaults);
    if r4.Ok? {
      assert RegisterTasks(r4.value, ext, env, Defaults[Tasks].items) == Ok(r4.value);
    }
  }

  /** The fixed services never take the panel's name. */
  lemma CoreServicesKeepBarFree(g: Graph, ext: string, env: Env, parameters: map<string, Value>, config: Config)
    requires g.Valid() && Defaults.Keys <= config.Keys
    requires CoreServices(g, ext, env, parameters, config).Ok?
    requires Prefix(ext, "bar") !in g.defs
    ensures Prefix(ext, "bar") !in CoreServices(g, ext, env, parameters, config).value.defs
  {
    CoreNamesDistinct(ext);
    var g4 := CoreServices(g, ext, env, parameters, config).value;
    assert Prefix(ext, "bar") !in g.order;
    assert Prefix(ext, "bar") !in g4.order;
  }

  /** On the defaults, with the panel's name free, the panel stage succeeds,
      registers the panel exactly when Tracy's Bar exists and sets no log
      service. */
  lemma DefaultsPanelFree(g4: Graph, ext: string, env: Env)
    requires g4.Valid()
    requires Prefix(ext, "bar") !in g4.defs
    ensures LoadPanel(g4, ext, env, Defaults).Ok?
    ensures var l := LoadPanel(g4, ext, env, Defaults).value;
      && (Prefix(ext, "bar") in l.graph.defs <==> TracyBarClass in env.classes)
      && l.cronLogService.None?
  {
    DefaultsPanel(g4, ext, env);
    LoadPanelShape(g4, ext, env, Defaults);
    var l := LoadPanel(g4, ext, env, Defaults).value;
    assert Prefix(ext, "bar") in l.graph.defs <==> Prefix(ext, "bar") in l.graph.order;
    assert Prefix(ext, "bar") !in g4.order;
  }

  /** With an empty section every option takes its default. When none of the
      names it registers is taken, loading succeeds, registers the panel
      exactly when Tracy's Bar exists, and leaves no log service set. */
  lemma DefaultsLoad(g: Graph, ext: string, env: Env, parameters: map<string, Value>)
    requires g.Valid()
    requires forall n :: n in CoreNames(ext) ==> n !in g.defs
    requires Prefix(ext, "bar") !in g.defs
    ensures LoadConfig(g, ext, env, parameters, map[]).Ok?
    ensures var l := LoadConfig(g, ext, env, parameters, map[]).value;
      && (Prefix(ext, "bar") in l.graph.defs <==> TracyBarClass in env.classes)
      && l.cronLogService.None?
  {
    LoadDefaults(g, ext, env, parameters);
    CoreServicesWhenFree(g, ext, env, parameters, Defaults);
    CoreServicesKeepBarFree(g, ext, env, parameters, Defaults);
    DefaultsPanelFree(CoreServices(g, ext, env, parameters, Defaults).value, ext, env);
  }

  // ---------------------------------------------------------------------
  // createServiceByConfig

  /** A string that names no service, a ServiceDefinition and any object other
      than a Statement are treated as if the option were null: the factory
      comes from the fallback type or the fallback class. */
  lemma UnresolvedFallsBack(env: Env, defs: map<string, Definition>, parameters: map<string, Value>,
                            config: Value, fallbackType: string, fallbackClass: string,
                            fallbackArguments: seq<Value>)
    requires (config.Str? && !Names(env.serviceName(defs, config.s))) || config.Service? || config.Obj?
    ensures ChosenFactory(env, defs, parameters, config, fallbackType, fallbackClass, fallbackArguments)
         == ChosenFactory(env, defs, parameters, Null, fallbackType, fallbackClass, fallbackArguments)
  {
  }

  // ---------------------------------------------------------------------
  // beforeCompile

  lemma AddTasksCallInjective(a: string, b: string)
    requires AddTasksCall(a) == AddTasksCall(b)
    ensures a == b
  {
    assert ("@" + a)[1..] == a;
    assert ("@" + b)[1..] == b;
  }

  /** Over distinct names, each name gets exactly one addTasks call and no
      other service gets any. */
  lemma {:induction false} AddTasksCallsCount(names: seq<string>, n: string)
    requires Distinct(names)
    ensures multiset(AddTasksCalls(names))[AddTasksCall(n)] == if n in names then 1 else 0
    decreases |names|
  {
    if names != [] {
      var init, last := names[..|names| - 1], names[|names| - 1];
      assert names == init + [last];
      AddTasksCallsCount(init, n);
      assert last !in init;
      if AddTasksCall(last) == AddTasksCall(n) {
        AddTasksCallInjective(last, n);
      }
      assert multiset(AddTasksCalls(names)) == multiset(AddTasksCalls(init)) + multiset{AddTasksCall(last)};
    }
  }

  /** beforeCompile adds one addTasks call for each service tagged as a task
      and none for any other service. */
  lemma CompileCallsEachTaggedOnce(g: Graph, ext: string, env: Env, log: Option<string>, n: string)
    requires g.Valid() && CompileSetups(g, ext, env, log).Ok?
    ensures var before := g.defs[Prefix(ext, "runner")].setup;
      var after := CompileSetups(g, ext, env, log).value.defs[Prefix(ext, "runner")].setup;
      multiset(after)[AddTasksCall(n)]
        == multiset(before)[AddTasksCall(n)] + (if n in g.defs && TasksTag in g.defs[n].tags then 1 else 0)
  {
    var tagged := FindByTag(g, TasksTag);
    AddTasksCallsCount(tagged, n);
    var tail := if LogServiceSet(log) then [LogServiceCall(log.value)] else [];
    assert AddTasksCall(n) !in multiset(tail);
    assert n in tagged <==> n in g.defs && TasksTag in g.defs[n].tags by {
      assert n in g.defs ==> n in g.order;
    }
  }

  /** After a successful loadConfiguration and beforeCompile the runner's setup
      calls addTasks exactly once for each configured task. */
  lemma EachTaskAddedOnce(g: Graph, ext: string, env: Env, parameters: map<string, Value>, user: Config, t: Value)
    requires g.Valid() && LoadConfig(g, ext, env, parameters, user).Ok?
    requires var l := LoadConfig(g, ext, env, parameters, user).value;
      CompileSetups(l.graph, ext, env, l.cronLogService).Ok?
    requires Merge(user, Defaults)[Tasks].Arr? && t in Merge(user, Defaults)[Tasks].items
    ensures HasEntity(t)
    ensures var l := LoadConfig(g, ext, env, parameters, user).value;
      var runner := CompileSetups(l.graph, ext, env, l.cronLogService).value.defs[Prefix(ext, "runner")];
      multiset(runner.setup)[AddTasksCall(TaskName(ext, env, t))] == 1
  {
    LoadConfigDefinitions(g, ext, env, parameters, user);
    LoadConfigOrder(g, ext, env, parameters, user);
    var l := LoadConfig(g, ext, env, parameters, user).value;
    CompileCallsEachTaggedOnce(l.graph, ext, env, l.cronLogService, TaskName(ext, env, t));
    assert TasksTag in TaskTags;
  }

  /** afterCompile's condition after the whole run: the panel is added to the
      container exactly when the panel service was registered. */
  lemma PanelAddedAfterCompile(g: Graph, ext: string, env: Env, parameters: map<string, Value>, user: Config)
    requires g.Valid() && LoadConfig(g, ext, env, parameters, user).Ok?
    requires var l := LoadConfig(g, ext, env, parameters, user).value;
      CompileSetups(l.graph, ext, env, l.cronLogService).Ok?
    ensures var l := LoadConfig(g, ext, env, parameters, user).value;
      Prefix(ext, "bar") in CompileSetups(l.graph, ext, env, l.cronLogService).value.defs
      <==> Prefix(ext, "bar") in g.defs || PanelWanted(env, Merge(user, Defaults))
  {
    PanelRegistered(g, ext, env, parameters, user);
  }

  // ---------------------------------------------------------------------
  // A run with one task

  /** A task's service never takes one of the four fixed names. */
  lemma TaskNameNotCore(ext: string, env: Env, task: Value)
    requires HasEntity(task)
    ensures TaskName(ext, env, task) !in CoreNames(ext)
  {
    var local := "task." + env.md5(TaskKey(env, task));
    assert local[0] == 't' && local[1] == 'a';
    PrefixInjective(ext, local, "timestampStorage");
    PrefixInjective(ext, local, "criticalSectionDriver");
    PrefixInjective(ext, local, "criticalSection");
    PrefixInjective(ext, local, "runner");
  }

  /** A section that holds only a task list passes the option checks, since
      every option checked keeps its default. */
  lemma TasksOnlyPassChecks(tasks: seq<Value>)
    ensures ShapeError(Merge(map[Tasks := Arr(tasks)], Defaults)).None?
  {
    var config := Merge(map[Tasks := Arr(tasks)], Defaults);
    DefaultsPassChecks();
    forall i | 0 <= i < |ShapeChecks|
      ensures Is(config[ShapeChecks[i].0], ShapeChecks[i].1)
    {
      assert ShapeChecks[i].0 != Tasks;
      assert Is(Defaults[ShapeChecks[i].0], ShapeChecks[i].1);
    }
  }

  /** Right after the fixed services, one task registers and the panel's
      name stays free. */
  lemma OneTaskAfterCore(g4: Graph, ext: string, env: Env, task: Value)
    requires g4.Valid() && g4.order == CoreNames(ext)
    requires HasEntity(task)
    ensures RegisterTasks(g4, ext, env, [task]).Ok?
    ensures Prefix(ext, "bar") !in RegisterTasks(g4, ext, env, [task]).value.defs
  {
    var name := TaskName(ext, env, task);
    TaskNameNotCore(ext, env, task);
    assert TaskNames(ext, env, [task]) == [name];
    assert name !in g4.order;
    RegisterTasksWhenFree(g4, ext, env, [task]);
    var g5 := RegisterTasks(g4, ext, env, [task]).value;
    RegisterTasksOrder(g4, ext, env, [task]);
    CoreNamesDistinct(ext);
    TaskNameNotPanel(ext, env, task);
    assert g5.order == CoreNames(ext) + [name];
    assert Prefix(ext, "bar") !in g5.order;
  }

  /** With the panel's name free and no log service configured, the panel
      step succeeds. */
  lemma PanelStepWhenFree(g5: Graph, ext: string, env: Env, config: Config)
    requires g5.Valid() && Defaults.Keys <= config.Keys
    requires Prefix(ext, "bar") !in g5.defs
    requires config[CronLogService] == Null
    ensures LoadPanel(g5, ext, env, config).Ok?
  {
  }

  /** loadConfiguration with a section holding one string or Statement task,
      on a container with no services yet, succeeds. */
  lemma OneTaskLoads(ext: string, env: Env, parameters: map<string, Value>, task: Value)
    requires HasEntity(task)
    ensures LoadConfig(Graph(map[], []), ext, env, parameters, map[Tasks := Arr([task])]).Ok?
  {
    var g := Graph(map[], []);
    var config := Merge(map[Tasks := Arr([task])], Defaults);
    TasksOnlyPassChecks([task]);
    CoreServicesWhenFree(g, ext, env, parameters, config);
    var g4 := CoreServices(g, ext, env, parameters, config).value;
    assert g4.order == CoreNames(ext);
    assert config[Tasks] == Arr([task]);
    OneTaskAfterCore(g4, ext, env, task);
    PanelStepWhenFree(RegisterTasks(g4, ext, env, [task]).value, ext, env, config);
  }

  /** The same run then passes beforeCompile, and the runner calls the task
      exactly once. */
  lemma OneTaskRun(ext: string, env: Env, parameters: map<string, Value>, task: Value)
    requires HasEntity(task)
    ensures var l := LoadConfig(Graph(map[], []), ext, env, parameters, map[Tasks := Arr([task])]);
      && l.Ok?
      && CompileSetups(l.value.graph, ext, env, l.value.cronLogService).Ok?
      && multiset(CompileSetups(l.value.graph, ext, env, l.value.cronLogService).value.defs[Prefix(ext, "runner")].setup)
           [AddTasksCall(TaskName(ext, env, task))] == 1
  {
    var g := Graph(map[], []);
    var user := map[Tasks := Arr([task])];
    OneTaskLoads(ext, env, parameters, task);
    LoadConfigDefinitions(g, ext, env, parameters, user);
    assert Merge(user, Defaults)[CronLogService] == Null;
    assert task in Merge(user, Defaults)[Tasks].items;
    EachTaskAddedOnce(g, ext, env, parameters, user, task);
  }
}
