/** CronnerExtension: the Nette DI compiler extension that turns the `cronner`
    configuration section into service definitions, in three phases
    (loadConfiguration, beforeCompile, afterCompile). */
module CronnerDI {
  import opened Wrappers
  import opened Values
  import opened Container

  const TasksTag := "cronner.tasks"
  const DefaultStorageClass := "stekycz\\Cronner\\TimestampStorage\\FileStorage"
  const DefaultStorageDirectory := "%tempDir%/cronner"
  const StorageType := "stekycz\\Cronner\\ITimestampStorage"
  const DriverType := "Bileto\\CriticalSection\\Driver\\IDriver"
  const DefaultDriverClass := "Bileto\\CriticalSection\\Driver\\FileDriver"
  const CriticalSectionClass := "Bileto\\CriticalSection\\CriticalSection"
  const RunnerClass := "stekycz\\Cronner\\Cronner"
  const PanelClass := "stekycz\\Cronner\\Bar\\Tasks"
  const TracyBarClass := "Tracy\\Bar"

  /** The library functions and the reflection the extension consults. Their
      behaviour is not modelled: they are given, as arbitrary functions. */
  datatype Env = Env(
    serviceName: (map<string, Definition>, string) -> Option<string>,  // ContainerBuilder::getServiceName
    byType: (map<string, Definition>, string) -> Option<string>,       // ContainerBuilder::getByType
    expand: (seq<Value>, map<string, Value>) -> seq<Value>,            // Helpers::expand
    filter: Statement -> Statement,                                   // Compiler::filterArguments on one statement
    md5: string -> string,
    json: Statement -> string,                                         // Json::encode
    classes: set<string>,                                              // class_exists
    methods: set<(string, string)>)                                    // method_exists

  /** What aborts compilation. */
  datatype Error =
    | AssertionFailed(option: Key, expected: seq<TypeName>)  // Validators::assert
    | TaskWithoutEntity(task: Value)       // getEntity() called on a task that is not a Statement
    | LogServiceNotString(value: Value)    // TypeError assigning to the ?string field
    | ServiceExists(name: string)          // addDefinition on a name already taken
    | ServiceMissing(name: string)         // getDefinition on a name not registered
    | LogClassMissing(cls: string)
    | LogMethodMissing(cls: string, methodName: string)

  /** The options of the `cronner` section the extension looks up. PHP keys
      are strings; the extension reads no other key, so any other key the
      section holds has no effect and is not represented. */
  datatype Key =
    | TimestampStorage
    | MaxExecutionTime
    | CriticalSectionTempDir
    | CriticalSectionDriver
    | Tasks
    | Bar
    | CronLogService
    | DebugMode

  type Config = map<Key, Value>

  /** The extension's `$defaults`. */
  const Defaults: Config := map[
    TimestampStorage := Null,
    MaxExecutionTime := Null,
    CriticalSectionTempDir := Str("%tempDir%/critical-section"),
    CriticalSectionDriver := Null,
    Tasks := Arr([]),
    Bar := Str("%debugMode%"),
    CronLogService := Null
  ]

  /** PHP's array union `user + defaults`: a key present in `user` keeps the
      user's value, a key missing from it takes the default. */
  function Merge(user: Config, defaults: Config): (config: Config)
    ensures config.Keys == user.Keys + defaults.Keys
    ensures forall k :: k in user ==> config[k] == user[k]
    ensures forall k :: k in defaults && k !in user ==> config[k] == defaults[k]
  {
    defaults + user
  }

  /** CompilerExtension::prefix: the extension's name and a dot, inserted
      after a leading '@' if there is one. */
  function Prefix(ext: string, id: string): string
  {
    if |id| > 0 && id[0] == '@' then "@" + ext + "." + id[1..] else ext + "." + id
  }

  // ---------------------------------------------------------------------
  // Option shapes (Validators::assert)

  /** The type names the extension's Validators::assert calls use. */
  datatype TypeName = StringType | ObjectType | NullType | IntegerType | ArrayType

  /** Validators::is for one type name. */
  predicate HasType(v: Value, t: TypeName)
  {
    match t
    case StringType => v.Str?
    case ObjectType => IsObject(v)
    case NullType => v.Null?
    case IntegerType => v.Int?
    case ArrayType => v.Arr?
  }

  /** Validators::is for a `a|b|c` type list, given as a sequence. */
  predicate Is(v: Value, types: seq<TypeName>)
  {
    exists t :: t in types && HasType(v, t)
  }

  /** The option checks loadConfiguration makes before it registers anything,
      in the order it makes them. */
  const ShapeChecks: seq<(Key, seq<TypeName>)> := [
    (TimestampStorage, [StringType, ObjectType, NullType]),
    (MaxExecutionTime, [IntegerType, NullType]),
    (CriticalSectionTempDir, [StringType, NullType]),
    (CriticalSectionDriver, [StringType, ObjectType, NullType])
  ]

  /** The index of the first check the configuration fails, if any. */
  function FirstMismatch(config: Config, checks: seq<(Key, seq<TypeName>)>): (r: Option<nat>)
    requires forall c :: c in checks ==> c.0 in config
    ensures r.None? <==> forall i :: 0 <= i < |checks| ==> Is(config[checks[i].0], checks[i].1)
    ensures r.Some? ==> r.value < |checks| && !Is(config[checks[r.value].0], checks[r.value].1)
    ensures r.Some? ==> forall j :: 0 <= j < r.value ==> Is(config[checks[j].0], checks[j].1)
  {
    if checks == [] then None
    else if !Is(config[checks[0].0], checks[0].1) then Some(0)
    else
      match FirstMismatch(config, checks[1..])
      case None => None
      case Some(i) => Some(i + 1)
  }

  /** The error the option checks raise on a merged configuration, if any. */
  function ShapeError(config: Config): Option<Error>
    requires Defaults.Keys <= config.Keys
  {
    match FirstMismatch(config, ShapeChecks)
    case None => None
    case Some(i) => Some(AssertionFailed(ShapeChecks[i].0, ShapeChecks[i].1))
  }

  // ---------------------------------------------------------------------
  // createServiceByConfig

  /** `if ($name)` on a name a lookup returned. */
  predicate Names(found: Option<string>)
  {
    found.Some? && StringTruthy(found.value)
  }

  /** The factory createServiceByConfig gives the new service: an existing
      service named by a string, else a Statement, else a service of the
      fallback type, else the fallback class with its arguments expanded. */
  function ChosenFactory(env: Env, defs: map<string, Definition>, parameters: map<string, Value>,
                         config: Value, fallbackType: string, fallbackClass: string,
                         fallbackArguments: seq<Value>): Statement
  {
    if config.Str? && Names(env.serviceName(defs, config.s)) then Statement(config.s, [])
    else if config.Stmt? then config.st
    else if Names(env.byType(defs, fallbackType)) then Statement("@" + env.byType(defs, fallbackType).value, [])
    else Statement(fallbackClass, env.expand(fallbackArguments, parameters))
  }

  /** Every service createServiceByConfig registers: neither autowired nor injected. */
  function HiddenService(factory: Statement): Definition
  {
    Definition(Some(factory), false, map[InjectTag := false], [])
  }

  /** addDefinition followed by the setters that give the definition `d`. */
  function AddService(g: Graph, name: string, d: Definition): (r: Result<Graph, Error>)
    requires g.Valid()
    ensures r.Err? <==> name in g.defs
    ensures r.Err? ==> r.error == ServiceExists(name)
    ensures r.Ok? ==> r.value.Valid() && r.value.order == g.order + [name]
    ensures r.Ok? ==> r.value.defs.Keys == g.defs.Keys + {name} && r.value.defs[name] == d
    ensures r.Ok? ==> forall n :: n in g.defs ==> r.value.defs[n] == g.defs[n]
  {
    if name in g.defs then Err(ServiceExists(name)) else Ok(g.Add(name, d))
  }

  /** createServiceByConfig on graph `g`: exactly one new definition, under
      `name`, whichever way its factory was chosen. */
  function ResolveService(g: Graph, env: Env, parameters: map<string, Value>, name: string,
                          config: Value, fallbackType: string, fallbackClass: string,
                          fallbackArguments: seq<Value>): (r: Result<Graph, Error>)
    requires g.Valid()
    ensures r.Err? <==> name in g.defs
    ensures r.Ok? ==> r.value.Valid() && r.value.order == g.order + [name]
    ensures r.Ok? ==> r.value.defs.Keys == g.defs.Keys + {name}
    ensures r.Ok? ==> forall n :: n in g.defs ==> r.value.defs[n] == g.defs[n]
    ensures r.Ok? ==> var d := r.value.defs[name];
      !d.autowired && d.tags == map[InjectTag := false] && d.setup == []
    ensures r.Ok? && config.Str? && Names(env.serviceName(g.defs, config.s)) ==>
      r.value.defs[name].factory == Some(Statement(config.s, []))
    ensures r.Ok? && !(config.Str? && Names(env.serviceName(g.defs, config.s))) && config.Stmt? ==>
      r.value.defs[name].factory == Some(Statement(config.st.entity, config.st.arguments))
    ensures (r.Ok? && !(config.Str? && Names(env.serviceName(g.defs, config.s))) && !config.Stmt?
             && Names(env.byType(g.defs, fallbackType))) ==>
      r.value.defs[name].factory == Some(Statement("@" + env.byType(g.defs, fallbackType).value, []))
    ensures (r.Ok? && !(config.Str? && Names(env.serviceName(g.defs, config.s))) && !config.Stmt?
             && !Names(env.byType(g.defs, fallbackType))) ==>
      r.value.defs[name].factory == Some(Statement(fallbackClass, env.expand(fallbackArguments, parameters)))
  {
    AddService(g, name, HiddenService(ChosenFactory(env, g.defs, parameters, config, fallbackType, fallbackClass, fallbackArguments)))
  }

  // ---------------------------------------------------------------------
  // The critical section, the runner and the panel

  function CriticalSectionDefinition(ext: string): Definition
  {
    HiddenService(Statement(CriticalSectionClass, [Service(Prefix(ext, "criticalSectionDriver"))]))
  }

  /** The runner's fourth argument: whether to enforce the time limit. */
  function EnforceTimeLimit(config: Config): bool
  {
    if DebugMode in config then !Truthy(config[DebugMode]) else true
  }

  /** The runner: autowired, untagged, built from the storage, the critical
      section, the time limit and the enforcement flag. */
  function RunnerDefinition(ext: string, config: Config): Definition
    requires MaxExecutionTime in config
  {
    Definition(Some(Statement(RunnerClass, [
      Service(Prefix(ext, "timestampStorage")),
      Service(Prefix(ext, "criticalSection")),
      config[MaxExecutionTime],
      Bool(EnforceTimeLimit(config))])), true, map[], [])
  }

  function PanelDefinition(ext: string): Definition
  {
    Definition(Some(Statement(PanelClass, [
      Str(Prefix(ext, "@runner")),
      Str(Prefix(ext, "@timestampStorage"))])), true, map[], [])
  }

  predicate PanelWanted(env: Env, config: Config)
    requires Bar in config
  {
    Truthy(config[Bar]) && TracyBarClass in env.classes
  }

  // ---------------------------------------------------------------------
  // Tasks

  predicate HasEntity(task: Value)
  {
    task.Str? || task.Stmt?
  }

  /** What is hashed to name a task's service: the task string itself, or the
      entity, a dash and the JSON form of the statement. */
  function TaskKey(env: Env, task: Value): string
    requires HasEntity(task)
  {
    if task.Str? then task.s else task.st.entity + "-" + env.json(task.st)
  }

  function TaskName(ext: string, env: Env, task: Value): string
    requires HasEntity(task)
  {
    Prefix(ext, "task." + env.md5(TaskKey(env, task)))
  }

  function TaskNames(ext: string, env: Env, tasks: seq<Value>): seq<string>
    requires forall t :: t in tasks ==> HasEntity(t)
  {
    if tasks == [] then [] else [TaskName(ext, env, tasks[0])] + TaskNames(ext, env, tasks[1..])
  }

  /** The task's factory after filterArguments; setFactory(entity) with no
      arguments when the entity is an existing class. */
  function TaskFactory(env: Env, task: Value): (r: Statement)
    requires HasEntity(task)
    ensures var f := env.filter(if task.Str? then Statement(task.s, []) else task.st);
      r.entity == f.entity && r.arguments == (if f.entity in env.classes then [] else f.arguments)
  {
    var f := env.filter(if task.Str? then Statement(task.s, []) else task.st);
    if f.entity in env.classes then Statement(f.entity, []) else f
  }

  const TaskTags := map[InjectTag := false, TasksTag := true]

  function TaskDefinition(env: Env, task: Value): Definition
    requires HasEntity(task)
  {
    Definition(Some(TaskFactory(env, task)), false, TaskTags, [])
  }

  /** One pass of the task loop. */
  function RegisterTask(g: Graph, ext: string, env: Env, task: Value): (r: Result<Graph, Error>)
    requires g.Valid()
    ensures r.Ok? ==> HasEntity(task) && TaskName(ext, env, task) !in g.defs
    ensures r.Ok? ==> r.value == g.Add(TaskName(ext, env, task), TaskDefinition(env, task))
    ensures HasEntity(task) && TaskName(ext, env, task) !in g.defs ==> r.Ok?
  {
    if !HasEntity(task) then Err(TaskWithoutEntity(task))
    else AddService(g, TaskName(ext, env, task), TaskDefinition(env, task))
  }

  /** The task loop: the tasks registered one by one, in order, stopping at
      the first that fails. */
  function RegisterTasks(g: Graph, ext: string, env: Env, tasks: seq<Value>): (r: Result<Graph, Error>)
    requires g.Valid()
    ensures r.Ok? ==> r.value.Valid()
    decreases |tasks|
  {
    if tasks == [] then Ok(g)
    else
      var g1 :- RegisterTask(g, ext, env, tasks[0]);
      RegisterTasks(g1, ext, env, tasks[1..])
  }

  lemma RegisterTasksStep(g: Graph, ext: string, env: Env, tasks: seq<Value>)
    requires g.Valid() && tasks != [] && RegisterTasks(g, ext, env, tasks).Ok?
    ensures RegisterTask(g, ext, env, tasks[0]).Ok?
    ensures RegisterTasks(g, ext, env, tasks)
         == RegisterTasks(RegisterTask(g, ext, env, tasks[0]).value, ext, env, tasks[1..])
  {
  }

  /** A completed task loop saw only strings and Statements. */
  lemma {:induction false} RegisterTasksHaveEntities(g: Graph, ext: string, env: Env, tasks: seq<Value>)
    requires g.Valid() && RegisterTasks(g, ext, env, tasks).Ok?
    ensures forall t :: t in tasks ==> HasEntity(t)
    decreases |tasks|
  {
    if tasks != [] {
      RegisterTasksStep(g, ext, env, tasks);
      RegisterTasksHaveEntities(RegisterTask(g, ext, env, tasks[0]).value, ext, env, tasks[1..]);
      assert forall t :: t in tasks ==> t == tasks[0] || t in tasks[1..];
    }
  }

  lemma AppendAssoc<T>(a: seq<T>, b: seq<T>, c: seq<T>)
    ensures (a + b) + c == a + (b + c)
  {
  }

  /** A completed task loop appended one name per task, in task order. */
  lemma {:induction false} RegisterTasksOrder(g: Graph, ext: string, env: Env, tasks: seq<Value>)
    requires g.Valid() && RegisterTasks(g, ext, env, tasks).Ok?
    ensures forall t :: t in tasks ==> HasEntity(t)
    ensures RegisterTasks(g, ext, env, tasks).value.order == g.order + TaskNames(ext, env, tasks)
    decreases |tasks|
  {
    RegisterTasksHaveEntities(g, ext, env, tasks);
    if tasks != [] {
      RegisterTasksStep(g, ext, env, tasks);
      var g1 := RegisterTask(g, ext, env, tasks[0]).value;
      var first, rest := TaskName(ext, env, tasks[0]), TaskNames(ext, env, tasks[1..]);
      RegisterTasksOrder(g1, ext, env, tasks[1..]);
      var r := RegisterTasks(g, ext, env, tasks).value;
      assert g1.order == g.order + [first] by {
        assert RegisterTask(g, ext, env, tasks[0]).value == g.Add(first, TaskDefinition(env, tasks[0]));
      }
      calc {
        r.order;
        g1.order + rest;
        (g.order + [first]) + rest;
        { AppendAssoc(g.order, [first], rest); }
        g.order + ([first] + rest);
        g.order + TaskNames(ext, env, tasks);
      }
    }
  }

  /** A completed task loop left every earlier definition as it was. */
  lemma {:induction false} RegisterTasksKeepEarlier(g: Graph, ext: string, env: Env, tasks: seq<Value>)
    requires g.Valid() && RegisterTasks(g, ext, env, tasks).Ok?
    ensures g.defs.Keys <= RegisterTasks(g, ext, env, tasks).value.defs.Keys
    ensures forall n :: n in g.defs ==> RegisterTasks(g, ext, env, tasks).value.defs[n] == g.defs[n]
    decreases |tasks|
  {
    if tasks != [] {
      RegisterTasksStep(g, ext, env, tasks);
      RegisterTasksKeepEarlier(RegisterTask(g, ext, env, tasks[0]).value, ext, env, tasks[1..]);
    }
  }

  /** A completed task loop gave each task the definition built from it. */
  lemma {:induction false} RegisterTasksDefinitions(g: Graph, ext: string, env: Env, tasks: seq<Value>)
    requires g.Valid() && RegisterTasks(g, ext, env, tasks).Ok?
    ensures forall t :: t in tasks ==> HasEntity(t)
    ensures forall i :: 0 <= i < |tasks| ==>
      && TaskName(ext, env, tasks[i]) in RegisterTasks(g, ext, env, tasks).value.defs
      && RegisterTasks(g, ext, env, tasks).value.defs[TaskName(ext, env, tasks[i])] == TaskDefinition(env, tasks[i])
    decreases |tasks|
  {
    RegisterTasksHaveEntities(g, ext, env, tasks);
    if tasks != [] {
      RegisterTasksStep(g, ext, env, tasks);
      var g1 := RegisterTask(g, ext, env, tasks[0]).value;
      var rest := tasks[1..];
      RegisterTasksDefinitions(g1, ext, env, rest);
      RegisterTasksKeepEarlier(g1, ext, env, rest);
      var r := RegisterTasks(g, ext, env, tasks).value;
      forall i | 0 <= i < |tasks|
        ensures TaskName(ext, env, tasks[i]) in r.defs && r.defs[TaskName(ext, env, tasks[i])] == TaskDefinition(env, tasks[i])
      {
        if i > 0 {
          assert tasks[i] == rest[i - 1];
        }
      }
    }
  }

  /** The task loop completes when every task is a string or a Statement and
      their names are all different and all free. */
  lemma {:induction false} RegisterTasksWhenFree(g: Graph, ext: string, env: Env, tasks: seq<Value>)
    requires g.Valid()
    requires forall t :: t in tasks ==> HasEntity(t)
    requires Distinct(TaskNames(ext, env, tasks))
    requires forall n :: n in TaskNames(ext, env, tasks) ==> n !in g.defs
    ensures RegisterTasks(g, ext, env, tasks).Ok?
    decreases |tasks|
  {
    if tasks != [] {
      var names := TaskNames(ext, env, tasks);
      var rest := TaskNames(ext, env, tasks[1..]);
      assert names == [names[0]] + rest;
      assert names[0] in names;
      var g1 := RegisterTask(g, ext, env, tasks[0]).value;
      assert Distinct(rest) by {
        forall i, j | 0 <= i < j < |rest|
          ensures rest[i] != rest[j]
        {
          assert rest[i] == names[i + 1] && rest[j] == names[j + 1];
        }
      }
      forall n | n in rest
        ensures n !in g1.defs
      {
        var k :| 0 <= k < |rest| && rest[k] == n;
        assert names[k + 1] == n;
      }
      RegisterTasksWhenFree(g1, ext, env, tasks[1..]);
    }
  }

  // ---------------------------------------------------------------------
  // loadConfiguration

  /** The four services loadConfiguration always registers, in order. */
  function CoreNames(ext: string): seq<string>
  {
    [Prefix(ext, "timestampStorage"), Prefix(ext, "criticalSectionDriver"),
     Prefix(ext, "criticalSection"), Prefix(ext, "runner")]
  }

  lemma AppendFour(o: seq<string>, a: string, b: string, c: string, d: string)
    ensures o + [a] + [b] + [c] + [d] == o + [a, b, c, d]
  {
  }

  /** The timestamp storage createServiceByConfig registers, given the
      services defined before it. */
  function StorageDefinition(env: Env, defs: map<string, Definition>, parameters: map<string, Value>, config: Config): Definition
    requires TimestampStorage in config
  {
    HiddenService(ChosenFactory(env, defs, parameters, config[TimestampStorage],
                                StorageType, DefaultStorageClass, [Str(DefaultStorageDirectory)]))
  }

  /** The critical-section driver createServiceByConfig registers, given the
      services defined before it (the storage among them). */
  function DriverDefinition(env: Env, defs: map<string, Definition>, parameters: map<string, Value>, config: Config): Definition
    requires CriticalSectionDriver in config && CriticalSectionTempDir in config
  {
    HiddenService(ChosenFactory(env, defs, parameters, config[CriticalSectionDriver],
                                DriverType, DefaultDriverClass, [config[CriticalSectionTempDir]]))
  }

  /** The storage, the driver, the critical section and the runner, appended
      in that order with nothing else touched; each gets the definition built
      from the options. */
  function CoreServices(g: Graph, ext: string, env: Env, parameters: map<string, Value>, config: Config): (r: Result<Graph, Error>)
    requires g.Valid() && Defaults.Keys <= config.Keys
    ensures r.Ok? ==> r.value.Valid() && r.value.order == g.order + CoreNames(ext)
    ensures r.Ok? ==> forall n :: n in g.defs ==> r.value.defs[n] == g.defs[n]
    ensures r.Ok? ==> r.value.defs[Prefix(ext, "timestampStorage")] == StorageDefinition(env, g.defs, parameters, config)
    ensures r.Ok? ==> (r.value.defs[Prefix(ext, "criticalSectionDriver")]
      == DriverDefinition(env, g.defs[Prefix(ext, "timestampStorage") := StorageDefinition(env, g.defs, parameters, config)],
                          parameters, config))
    ensures r.Ok? ==> r.value.defs[Prefix(ext, "criticalSection")] == CriticalSectionDefinition(ext)
    ensures r.Ok? ==> r.value.defs[Prefix(ext, "runner")] == RunnerDefinition(ext, config)
  {
    AppendFour(g.order, Prefix(ext, "timestampStorage"), Prefix(ext, "criticalSectionDriver"),
               Prefix(ext, "criticalSection"), Prefix(ext, "runner"));
    var g1 :- ResolveService(g, env, parameters, Prefix(ext, "timestampStorage"),
      config[TimestampStorage], StorageType, DefaultStorageClass, [Str(DefaultStorageDirectory)]);
    var g2 :- ResolveService(g1, env, parameters, Prefix(ext, "criticalSectionDriver"),
      config[CriticalSectionDriver], DriverType, DefaultDriverClass, [config[CriticalSectionTempDir]]);
    var g3 :- AddService(g2, Prefix(ext, "criticalSection"), CriticalSectionDefinition(ext));
    AddService(g3, Prefix(ext, "runner"), RunnerDefinition(ext, config))
  }

  /** The assignment to the `?string` field: null, a string, or a TypeError. */
  function LogServiceField(v: Value): Result<Option<string>, Error>
  {
    match v
    case Null => Ok(None)
    case Str(s) => Ok(Some(s))
    case _ => Err(LogServiceNotString(v))
  }

  datatype Loaded = Loaded(graph: Graph, cronLogService: Option<string>)

  /** loadConfiguration on graph `g` with the user's section `user`: the new
      graph and the value of the cronLogService field, or the error. */
  function LoadConfig(g: Graph, ext: string, env: Env, parameters: map<string, Value>, user: Config): (r: Result<Loaded, Error>)
    requires g.Valid()
    ensures r.Ok? ==> r.value.graph.Valid()
    ensures ShapeError(Merge(user, Defaults)).Some? ==> r == Err(ShapeError(Merge(user, Defaults)).value)
  {
    var config := Merge(user, Defaults);
    var shape := ShapeError(config);
    if shape.Some? then Err(shape.value)
    else
      var g4 :- CoreServices(g, ext, env, parameters, config);
      LoadTasks(g4, ext, env, config)
  }

  /** loadConfiguration from the check of `tasks` on. */
  function LoadTasks(g4: Graph, ext: string, env: Env, config: Config): (r: Result<Loaded, Error>)
    requires g4.Valid() && Defaults.Keys <= config.Keys
    ensures r.Ok? ==> r.value.graph.Valid()
  {
    if !config[Tasks].Arr? then Err(AssertionFailed(Tasks, [ArrayType]))
    else
      var g5 :- RegisterTasks(g4, ext, env, config[Tasks].items);
      LoadPanel(g5, ext, env, config)
  }

  /** loadConfiguration from the panel on. */
  function LoadPanel(g5: Graph, ext: string, env: Env, config: Config): (r: Result<Loaded, Error>)
    requires g5.Valid() && Defaults.Keys <= config.Keys
    ensures r.Ok? ==> r.value.graph.Valid()
  {
    var g6 :- if PanelWanted(env, config) then AddService(g5, Prefix(ext, "bar"), PanelDefinition(ext)) else Ok(g5);
    var log :- LogServiceField(config[CronLogService]);
    Ok(Loaded(g6, log))
  }

  // ---------------------------------------------------------------------
  // beforeCompile

  function AddTasksCall(name: string): Statement
  {
    Statement("addTasks", [Str("@" + name)])
  }

  /** One addTasks call per name, in the order of the names. */
  function AddTasksCalls(names: seq<string>): seq<Statement>
  {
    if names == [] then [] else AddTasksCalls(names[..|names| - 1]) + [AddTasksCall(names[|names| - 1])]
  }

  lemma TakeAll<T>(s: seq<T>)
    ensures s[..|s|] == s
  {
  }

  /** Calling one more name appends one more call. */
  lemma AddTasksCallsSnoc(names: seq<string>, i: nat)
    requires i < |names|
    ensures AddTasksCalls(names[..i + 1]) == AddTasksCalls(names[..i]) + [AddTasksCall(names[i])]
  {
    assert names[..i + 1][..i] == names[..i];
  }

  function LogServiceCall(cls: string): Statement
  {
    Statement("addCronLogService", [Str("@" + cls)])
  }

  /** The checks on the log service class, in order: the class, then
      logStart, then logEnd. */
  function LogServiceCheck(env: Env, cls: string): (r: Option<Error>)
    ensures r.None? <==> cls in env.classes && (cls, "logStart") in env.methods && (cls, "logEnd") in env.methods
    ensures r == Some(LogClassMissing(cls)) <==> cls !in env.classes
    ensures r == Some(LogMethodMissing(cls, "logStart")) <==> cls in env.classes && (cls, "logStart") !in env.methods
    ensures r == Some(LogMethodMissing(cls, "logEnd")) <==>
      cls in env.classes && (cls, "logStart") in env.methods && (cls, "logEnd") !in env.methods
  {
    if cls !in env.classes then Some(LogClassMissing(cls))
    else if (cls, "logStart") !in env.methods then Some(LogMethodMissing(cls, "logStart"))
    else if (cls, "logEnd") !in env.methods then Some(LogMethodMissing(cls, "logEnd"))
    else None
  }

  /** `if ($this->cronLogService)`. */
  predicate LogServiceSet(log: Option<string>)
  {
    log.Some? && StringTruthy(log.value)
  }

  /** beforeCompile on graph `g`: only the runner's setup changes; it gets one
      addTasks call per tagged service, in registration order, then the log
      service call when one is set and passes its checks. */
  function CompileSetups(g: Graph, ext: string, env: Env, log: Option<string>): (r: Result<Graph, Error>)
    requires g.Valid()
    ensures Prefix(ext, "runner") !in g.defs ==> r == Err(ServiceMissing(Prefix(ext, "runner")))
    ensures Prefix(ext, "runner") in g.defs && LogServiceSet(log) && LogServiceCheck(env, log.value).Some? ==>
      r == Err(LogServiceCheck(env, log.value).value)
    ensures r.Ok? <==> Prefix(ext, "runner") in g.defs && (LogServiceSet(log) ==> LogServiceCheck(env, log.value).None?)
    ensures r.Ok? ==> r.value.Valid() && r.value.order == g.order && r.value.defs.Keys == g.defs.Keys
    ensures r.Ok? ==> forall n :: n in g.defs && n != Prefix(ext, "runner") ==> r.value.defs[n] == g.defs[n]
    ensures r.Ok? ==> var runner := g.defs[Prefix(ext, "runner")];
      r.value.defs[Prefix(ext, "runner")] == runner.(setup := runner.setup
        + AddTasksCalls(FindByTag(g, TasksTag))
        + (if LogServiceSet(log) then [LogServiceCall(log.value)] else []))
  {
    var runnerName := Prefix(ext, "runner");
    if runnerName !in g.defs then Err(ServiceMissing(runnerName))
    else
      var runner := g.defs[runnerName];
      var g1 := g.Put(runnerName, runner.(setup := runner.setup + AddTasksCalls(FindByTag(g, TasksTag))));
      if !LogServiceSet(log) then Ok(g1)
      else match LogServiceCheck(env, log.value)
        case Some(e) => Err(e)
        case None => Ok(g1.Put(runnerName, g1.defs[runnerName].(setup := g1.defs[runnerName].setup + [LogServiceCall(log.value)])))
  }
}
