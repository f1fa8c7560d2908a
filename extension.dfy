/** The extension object: its three compiler phases work on the container
    builder in place, and loadConfiguration leaves the log service's class
    name in a field for beforeCompile. */
module Extension {
  import opened Wrappers
  import opened Values
  import opened Container
  import opened CronnerDI

  class CronnerExtension {
    /** The name the extension is registered under ('cronner'). */
    const name: string
    /** The configuration section as the user wrote it (getConfig()). */
    const config: Config
    const builder: ContainerBuilder
    const env: Env
    var cronLogService: Option<string>

    constructor (name: string, config: Config, builder: ContainerBuilder, env: Env)
      ensures this.name == name && this.config == config && this.builder == builder && this.env == env
      ensures cronLogService == None
    {
      this.name := name;
      this.config := config;
      this.builder := builder;
      this.env := env;
      cronLogService := None;
    }

    /** createServiceByConfig: registers `serviceName` with the factory the
        configuration value selects, then hides it from autowiring and
        injection. */
    method CreateServiceByConfig(serviceName: string, config: Value, fallbackType: string,
                                 fallbackClass: string, fallbackArguments: seq<Value>)
      returns (r: Outcome<Error>)
      requires builder.Valid()
      modifies builder
      ensures builder.Valid()
      ensures var spec := ResolveService(old(builder.State()), env, builder.parameters, serviceName,
                                         config, fallbackType, fallbackClass, fallbackArguments);
        r == OutcomeOf(spec) && (spec.Ok? ==> builder.State() == spec.value)
      ensures r.Fail? ==> builder.State() == old(builder.State())
    {
      ghost var g0 := builder.State();
      ghost var chosen := ChosenFactory(env, g0.defs, builder.parameters, config,
                                        fallbackType, fallbackClass, fallbackArguments);
      var added: bool;
      if config.Str? && Names(env.serviceName(builder.defs, config.s)) {
        added := builder.AddDefinition(serviceName);
        if !added { return Fail(ServiceExists(serviceName)); }
        builder.SetFactory(serviceName, Statement(config.s, []));
      } else if config.Stmt? {
        added := builder.AddDefinition(serviceName);
        if !added { return Fail(ServiceExists(serviceName)); }
        builder.SetFactory(serviceName, Statement(config.st.entity, config.st.arguments));
      } else {
        var found := env.byType(builder.defs, fallbackType);
        if Names(found) {
          added := builder.AddDefinition(serviceName);
          if !added { return Fail(ServiceExists(serviceName)); }
          builder.SetFactory(serviceName, Statement("@" + found.value, []));
        } else {
          added := builder.AddDefinition(serviceName);
          if !added { return Fail(ServiceExists(serviceName)); }
          builder.SetFactory(serviceName, Statement(fallbackClass, env.expand(fallbackArguments, builder.parameters)));
        }
      }
      ghost var d := Blank.(factory := Some(chosen));
      AddThenPut(g0, serviceName, Blank, d);
      assert builder.State() == g0.Add(serviceName, d);
      builder.SetAutowired(serviceName, false);
      AddThenPut(g0, serviceName, d, d.(autowired := false));
      d := d.(autowired := false);
      builder.AddTag(serviceName, InjectTag, false);
      AddThenPut(g0, serviceName, d, d.(tags := d.tags[InjectTag := false]));
      d := d.(tags := d.tags[InjectTag := false]);
      assert d == HiddenService(chosen);
      return Pass;
    }

    /** One pass of loadConfiguration's loop over the tasks: a definition named
        after the hash of the task, with the task's statement as its factory
        (the bare class when the entity is an existing class), hidden from
        autowiring and injection and tagged as a task. */
    method AddTask(task: Value) returns (r: Outcome<Error>)
      requires builder.Valid()
      modifies builder
      ensures builder.Valid()
      ensures var spec := RegisterTask(old(builder.State()), name, env, task);
        r == OutcomeOf(spec) && (spec.Ok? ==> builder.State() == spec.value)
    {
      if !(task.Str? || task.Stmt?) {
        return Fail(TaskWithoutEntity(task));
      }
      ghost var g0 := builder.State();
      var key := if task.Str? then task.s else task.st.entity + "-" + env.json(task.st);
      var taskName := Prefix(name, "task." + env.md5(key));
      var added := builder.AddDefinition(taskName);
      if !added {
        return Fail(ServiceExists(taskName));
      }
      var factory := env.filter(if task.Str? then Statement(task.s, []) else task.st);
      builder.SetFactory(taskName, factory);
      ghost var d := Blank.(factory := Some(factory));
      AddThenPut(g0, taskName, Blank, d);
      if factory.entity in env.classes {
        builder.SetFactory(taskName, Statement(factory.entity, []));
        AddThenPut(g0, taskName, d, d.(factory := Some(Statement(factory.entity, []))));
        d := d.(factory := Some(Statement(factory.entity, [])));
      }
      builder.SetAutowired(taskName, false);
      AddThenPut(g0, taskName, d, d.(autowired := false));
      d := d.(autowired := false);
      builder.AddTag(taskName, InjectTag, false);
      AddThenPut(g0, taskName, d, d.(tags := d.tags[InjectTag := false]));
      d := d.(tags := d.tags[InjectTag := false]);
      builder.AddTag(taskName, TasksTag, true);
      AddThenPut(g0, taskName, d, d.(tags := d.tags[TasksTag := true]));
      d := d.(tags := d.tags[TasksTag := true]);
      assert d == TaskDefinition(env, task);
      return Pass;
    }

    /** loadConfiguration's loop over the tasks. */
    method AddTasks(tasks: seq<Value>) returns (r: Outcome<Error>)
      requires builder.Valid()
      modifies builder
      ensures builder.Valid()
      ensures var spec := RegisterTasks(old(builder.State()), name, env, tasks);
        r == OutcomeOf(spec) && (spec.Ok? ==> builder.State() == spec.value)
    {
      ghost var g0 := builder.State();
      var i := 0;
      while i < |tasks|
        invariant 0 <= i <= |tasks|
        invariant builder.Valid()
        invariant RegisterTasks(g0, name, env, tasks) == RegisterTasks(builder.State(), name, env, tasks[i..])
      {
        var task := tasks[i];
        assert tasks[i..][0] == task && tasks[i..][1..] == tasks[i + 1..];
        r := AddTask(task);
        if r.Fail? {
          return;
        }
        i := i + 1;
      }
      assert tasks[i..] == [];
      return Pass;
    }

    /** loadConfiguration's four fixed services: the timestamp storage, the
        critical section driver, the critical section and the runner. */
    method AddCoreServices(config: Config) returns (r: Outcome<Error>)
      requires builder.Valid() && Defaults.Keys <= config.Keys
      modifies builder
      ensures builder.Valid()
      ensures var spec := CoreServices(old(builder.State()), name, env, builder.parameters, config);
        r == OutcomeOf(spec) && (spec.Ok? ==> builder.State() == spec.value)
    {
      ghost var g0 := builder.State();
      var storage := Prefix(name, "timestampStorage");
      r := CreateServiceByConfig(storage, config[TimestampStorage], StorageType,
                                 DefaultStorageClass, [Str(DefaultStorageDirectory)]);
      ghost var g1 := builder.State();
      ghost var step := ResolveService(g0, env, builder.parameters, storage, config[TimestampStorage],
                                       StorageType, DefaultStorageClass, [Str(DefaultStorageDirectory)]);
      if r.Fail? {
        return;
      }
      assert step == Ok(g1);

      var driver := Prefix(name, "criticalSectionDriver");
      r := CreateServiceByConfig(driver, config[CriticalSectionDriver], DriverType,
                                 DefaultDriverClass, [config[CriticalSectionTempDir]]);
      ghost var g2 := builder.State();
      step := ResolveService(g1, env, builder.parameters, driver, config[CriticalSectionDriver],
                             DriverType, DefaultDriverClass, [config[CriticalSectionTempDir]]);
      if r.Fail? {
        return;
      }
      assert step == Ok(g2);

      var criticalSection := Prefix(name, "criticalSection");
      var added := builder.AddDefinition(criticalSection);
      if !added {
        return Fail(ServiceExists(criticalSection));
      }
      builder.SetFactory(criticalSection, Statement(CriticalSectionClass, [Service(driver)]));
      ghost var d := Blank.(factory := Some(Statement(CriticalSectionClass, [Service(driver)])));
      AddThenPut(g2, criticalSection, Blank, d);
      builder.SetAutowired(criticalSection, false);
      AddThenPut(g2, criticalSection, d, d.(autowired := false));
      d := d.(autowired := false);
      builder.AddTag(criticalSection, InjectTag, false);
      AddThenPut(g2, criticalSection, d, d.(tags := d.tags[InjectTag := false]));
      ghost var g3 := builder.State();
      assert g3 == g2.Add(criticalSection, CriticalSectionDefinition(name));
      assert AddService(g2, criticalSection, CriticalSectionDefinition(name)) == Ok(g3);

      var runner := Prefix(name, "runner");
      added := builder.AddDefinition(runner);
      if !added {
        return Fail(ServiceExists(runner));
      }
      builder.SetFactory(runner, Statement(RunnerClass, [
        Service(storage),
        Service(criticalSection),
        config[MaxExecutionTime],
        Bool(if DebugMode in config then !Truthy(config[DebugMode]) else true)]));
      AddThenPut(g3, runner, Blank, RunnerDefinition(name, config));
      return Pass;
    }

    /** loadConfiguration's tail: the Tracy bar panel and the cronLogService field. */
    method AddPanel(config: Config) returns (r: Outcome<Error>)
      requires builder.Valid() && Defaults.Keys <= config.Keys
      modifies this, builder
      ensures builder.Valid()
      ensures var spec := LoadPanel(old(builder.State()), name, env, config);
        && r == OutcomeOf(spec)
        && (spec.Ok? ==> builder.State() == spec.value.graph && cronLogService == spec.value.cronLogService)
    {
      ghost var g5 := builder.State();
      if Truthy(config[Bar]) && TracyBarClass in env.classes {
        var bar := Prefix(name, "bar");
        var added := builder.AddDefinition(bar);
        if !added {
          return Fail(ServiceExists(bar));
        }
        builder.SetFactory(bar, Statement(PanelClass, [
          Str(Prefix(name, "@runner")),
          Str(Prefix(name, "@timestampStorage"))]));
        AddThenPut(g5, bar, Blank, PanelDefinition(name));
      }

      match config[CronLogService] {
        case Null =>
          cronLogService := None;
        case Str(s) =>
          cronLogService := Some(s);
        case _ =>
          return Fail(LogServiceNotString(config[CronLogService]));
      }
      return Pass;
    }

    /** loadConfiguration: merge the defaults in, check the option shapes, and
        register the services. */
    method LoadConfiguration() returns (r: Outcome<Error>)
      requires builder.Valid()
      modifies this, builder
      ensures builder.Valid()
      ensures var spec := LoadConfig(old(builder.State()), name, env, builder.parameters, config);
        && r == OutcomeOf(spec)
        && (spec.Ok? ==> builder.State() == spec.value.graph && cronLogService == spec.value.cronLogService)
      ensures ShapeError(Merge(config, Defaults)).Some? ==> builder.State() == old(builder.State())
    {
      var merged := Merge(config, Defaults);
      var shape := ShapeError(merged);
      if shape.Some? {
        return Fail(shape.value);
      }
      r := AddCoreServices(merged);
      if r.Fail? {
        return;
      }
      if !merged[Tasks].Arr? {
        return Fail(AssertionFailed(Tasks, [ArrayType]));
      }
      r := AddTasks(merged[Tasks].items);
      if r.Fail? {
        return;
      }
      r := AddPanel(merged);
    }

    /** beforeCompile's loop: one addTasks call on the runner for each
        service tagged as a task, in the order the services were added. */
    method CallTasks(runner: string)
      requires builder.Valid() && runner in builder.defs
      modifies builder
      ensures builder.Valid()
      ensures var g0 := old(builder.State());
        builder.State() == g0.Put(runner, g0.defs[runner].(setup := g0.defs[runner].setup
                                                              + AddTasksCalls(FindByTag(g0, TasksTag))))
    {
      ghost var g0 := builder.State();
      var tagged := FindByTag(builder.State(), TasksTag);
      var i := 0;
      assert g0.defs[runner].(setup := g0.defs[runner].setup + AddTasksCalls(tagged[..0])) == g0.defs[runner];
      PutSame(g0, runner);
      while i < |tagged|
        invariant 0 <= i <= |tagged|
        invariant builder.Valid()
        invariant builder.State() == g0.Put(runner, g0.defs[runner].(setup := g0.defs[runner].setup + AddTasksCalls(tagged[..i])))
      {
        ghost var before := g0.defs[runner].(setup := g0.defs[runner].setup + AddTasksCalls(tagged[..i]));
        builder.AddSetup(runner, Statement("addTasks", [Str("@" + tagged[i])]));
        PutTwice(g0, runner, before, before.(setup := before.setup + [AddTasksCall(tagged[i])]));
        AddTasksCallsSnoc(tagged, i);
        AppendAssoc(g0.defs[runner].setup, AddTasksCalls(tagged[..i]), [AddTasksCall(tagged[i])]);
        ghost var after := g0.defs[runner].(setup := g0.defs[runner].setup + AddTasksCalls(tagged[..i + 1]));
        assert before.(setup := before.setup + [AddTasksCall(tagged[i])]) == after;
        assert builder.State() == g0.Put(runner, after);
        i := i + 1;
      }
      TakeAll(tagged);
    }

    /** beforeCompile: the runner calls every tagged task, then, when a log
        service is set and has the two hooks, hands it to the runner. */
    method BeforeCompile() returns (r: Outcome<Error>)
      requires builder.Valid()
      modifies builder
      ensures builder.Valid()
      ensures var spec := CompileSetups(old(builder.State()), name, env, cronLogService);
        r == OutcomeOf(spec) && (spec.Ok? ==> builder.State() == spec.value)
    {
      var runner := Prefix(name, "runner");
      if runner !in builder.defs {
        return Fail(ServiceMissing(runner));
      }
      ghost var g0 := builder.State();
      CallTasks(runner);
      ghost var g1 := builder.State();

      if cronLogService.Some? && StringTruthy(cronLogService.value) {
        var cls := cronLogService.value;
        if cls !in env.classes {
          return Fail(LogClassMissing(cls));
        }
        if (cls, "logStart") !in env.methods {
          return Fail(LogMethodMissing(cls, "logStart"));
        }
        if (cls, "logEnd") !in env.methods {
          return Fail(LogMethodMissing(cls, "logEnd"));
        }
        ghost var before := builder.defs[runner];
        builder.AddSetup(runner, Statement("addCronLogService", [Str("@" + cls)]));
        PutTwice(g0, runner, before, before.(setup := before.setup + [LogServiceCall(cls)]));
        assert builder.State() == g1.Put(runner, g1.defs[runner].(setup := g1.defs[runner].setup + [LogServiceCall(cls)]));
      }
      assert CompileSetups(g0, name, env, cronLogService) == Ok(builder.State());
      return Pass;
    }

    /** afterCompile, its one decision: the panel is added to Tracy's bar in
        the generated container only when the `bar` service exists. */
    method AfterCompile() returns (addsPanel: bool)
      ensures addsPanel <==> Prefix(name, "bar") in builder.defs
    {
      addsPanel := Prefix(name, "bar") in builder.defs;
    }
  }
}
