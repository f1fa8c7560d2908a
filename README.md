# Cronner DI extension: a Dafny model

Cronner is a cron task runner for the Nette framework. Its compiler extension,
`CronnerExtension`, reads the `cronner` section of the application's
configuration and registers services in Nette's dependency-injection container.
It works in three phases:

- **loadConfiguration**
  - Merges the section over the extension's defaults and checks the option types.
  - Registers the timestamp storage and the critical-section driver. Each is an
    existing service, a statement, a service of the expected type, or a default
    class.
  - Registers the critical section and the `runner`.
  - Registers one service per task, named by a hash of the task.
  - Optionally registers the Tracy `bar` panel.
  - Remembers the `cronLogService` class name.
- **beforeCompile**
  - Gives the runner one `addTasks` call per service tagged `cronner.tasks`.
  - Checks the log service class, its `logStart` method and its `logEnd`
    method, in that order.
  - Gives the runner an `addCronLogService` call when all three checks pass.
- **afterCompile** adds the panel to Tracy's bar only when the `bar` service
  exists.

The model is imperative, like the extension:

- `Container.ContainerBuilder` is a class holding the container's definitions
  (`defs`) and their registration order (`order`). It offers `addDefinition`,
  `setFactory`, `setAutowired`, `addTag` and `addSetup`, which update those
  fields in place.
- `Extension.CronnerExtension` is a class whose methods follow the PHP methods
  branch by branch. Its field `cronLogService` carries the log class from one
  phase to the next.
- Each method is proved equal to a pure specification function in `CronnerDI`
  (for example `ResolveService`, `CoreServices`, `RegisterTasks`, `LoadConfig`
  and `CompileSetups`). The lemmas in `CronnerProperties` then prove what the
  extension promises about those functions.

Modelling choices:

- The library queries the extension makes are fields of the datatype
  `CronnerDI.Env`, left as arbitrary functions and sets. These are
  `getServiceName`, `getByType`, `Helpers::expand`, `Compiler::filterArguments`,
  `md5`, `Json::encode`, `class_exists` and `method_exists`.
- PHP truthiness is written out: the empty string and `"0"` are false.
- The array union `$user + $defaults` is `Merge`.
- The typed `?string` field rejects any value that is neither null nor a string.

Files:

- `wrappers.dfy`: `Option`, `Result` and `Outcome`.
- `values.dfy`: PHP configuration values and `Statement`.
- `container.dfy`: the container builder.
- `cronner_extension.dfy`: the extension's decisions as functions.
- `extension.dfy`: the extension class.
- `properties.dfy`: the properties of the whole run.

## Model

| member | source | states |
|---|---|---|
| CronnerDI.Merge | src/Cronner/DI/CronnerExtension.php:37-45 | The merged section has exactly the user's keys plus the default keys; a key the user gave keeps the user's value, and every other key takes its default. |
| CronnerDI.FirstMismatch | src/Cronner/DI/CronnerExtension.php:54-57 | No error exactly when every option passes its type check. An error names the first failing check, and every earlier check passed, so the assertions fail in source order. |
| CronnerDI.LoadConfig | src/Cronner/DI/CronnerExtension.php:49-121 | A failed option check aborts loadConfiguration with that check's error, before any definition is added. A successful load leaves a consistent container. |
| CronnerDI.AddService | src/Cronner/DI/CronnerExtension.php:81-94 | Adds exactly one definition under the new name and keeps every earlier definition. A name already taken stops the run. |
| CronnerDI.ResolveService | src/Cronner/DI/CronnerExtension.php:169-198 | createServiceByConfig adds exactly one definition, under the service name, and keeps every other definition. The definition is non-autowired, has inject=false and has no setup. Its factory follows this precedence: an existing service named by a string; else a Statement's entity and arguments; else '@' plus the service found by type; else the fallback class with its arguments expanded. |
| Extension.CronnerExtension.CreateServiceByConfig | src/Cronner/DI/CronnerExtension.php:169-198 | The builder's new state is exactly ResolveService of the old state. A failure leaves the builder unchanged. |
| CronnerProperties.UnresolvedFallsBack | src/Cronner/DI/CronnerExtension.php:178-192 | A string that names no service is never used as a factory: it gets the type lookup, and then the default class, exactly as null does. |
| CronnerDI.CoreServices | src/Cronner/DI/CronnerExtension.php:59-94 | On success it appends the storage, the driver, the critical section and the runner, in that order. It keeps every earlier definition. The storage is createServiceByConfig's choice from `timestampStorage` (ITimestampStorage lookup, else FileStorage on `%tempDir%/cronner`). The driver is its choice from `criticalSectionDriver` with the storage already registered (IDriver lookup, else FileDriver on `criticalSectionTempDir`). Both are hidden. The critical section and the runner get their fixed definitions. |
| Extension.CronnerExtension.AddCoreServices | src/Cronner/DI/CronnerExtension.php:59-94 | The builder's new state is the state CoreServices computes from the old one. |
| CronnerProperties.CoreServicesWhenFree | src/Cronner/DI/CronnerExtension.php:59-94 | When none of the four names is taken, the fixed services always register. |
| CronnerProperties.MergedRunnerOptions | src/Cronner/DI/CronnerExtension.php:53-93 | After merging, the time limit is the user's value or null. The enforcement flag is the negated truthiness of the user's `debugMode` when that key is present, and true otherwise. |
| CronnerProperties.RunnerEnforcesTimeLimit | src/Cronner/DI/CronnerExtension.php:88-94 | After a successful load the runner's factory is Cronner with, in order: the storage, the critical section, the user's maxExecutionTime or null, and `!debugMode` if that key is present or true otherwise. |
| CronnerDI.TaskFactory | src/Cronner/DI/CronnerExtension.php:99-105 | A task's factory keeps the entity of the filtered statement. Its arguments are dropped exactly when that entity is an existing class. |
| CronnerDI.RegisterTask | src/Cronner/DI/CronnerExtension.php:97-110 | One pass of the task loop succeeds only for a string or Statement task whose name is free, and always succeeds for such a task. On success it adds exactly the task's definition, named by the prefixed md5 of the task key. That definition is non-autowired, has inject=false and is tagged `cronner.tasks`. |
| CronnerDI.RegisterTasks | src/Cronner/DI/CronnerExtension.php:97-110 | The task loop keeps the container consistent. |
| CronnerDI.RegisterTasksHaveEntities | src/Cronner/DI/CronnerExtension.php:98 | A successful loop saw only strings and Statements. |
| CronnerDI.RegisterTasksOrder | src/Cronner/DI/CronnerExtension.php:97-110 | A successful loop appends exactly the tasks' names, in the order of the tasks. |
| CronnerDI.RegisterTasksKeepEarlier | src/Cronner/DI/CronnerExtension.php:97-110 | The task loop changes no definition that existed before it. |
| CronnerDI.RegisterTasksDefinitions | src/Cronner/DI/CronnerExtension.php:97-110 | After a successful loop every task's name holds that task's definition. |
| CronnerDI.RegisterTasksWhenFree | src/Cronner/DI/CronnerExtension.php:97-110 | The task loop completes when every task is a string or a Statement and the tasks' names are all different and none is taken. |
| Extension.CronnerExtension.AddTask | src/Cronner/DI/CronnerExtension.php:98-109 | The builder's new state is RegisterTask of the old one. |
| Extension.CronnerExtension.AddTasks | src/Cronner/DI/CronnerExtension.php:97-110 | The foreach over the tasks leaves the builder in the state RegisterTasks computes, or fails with its error. |
| CronnerDI.LoadTasks | src/Cronner/DI/CronnerExtension.php:96-121 | The tasks check, the task loop and the rest of loadConfiguration keep the container consistent. |
| CronnerDI.LoadPanel | src/Cronner/DI/CronnerExtension.php:112-120 | The panel step and the cronLogService assignment keep the container consistent. |
| Extension.CronnerExtension.AddPanel | src/Cronner/DI/CronnerExtension.php:112-120 | The builder's new state and the cronLogService field are what LoadPanel computes. |
| Extension.CronnerExtension.LoadConfiguration | src/Cronner/DI/CronnerExtension.php:49-121 | The builder's new state and the cronLogService field are what LoadConfig computes. A failed option check leaves the builder unchanged. |
| Extension.CronnerExtension.constructor | src/Cronner/DI/CronnerExtension.php:47 | cronLogService starts as null. |
| CronnerProperties.LoadPanelShape | src/Cronner/DI/CronnerExtension.php:112-120 | The panel, when wanted, is appended after everything else. The field holds the configured class name. |
| CronnerProperties.LoadConfigSteps | src/Cronner/DI/CronnerExtension.php:53-121 | A successful load passed the option checks, registered the fixed services, found `tasks` to be an array, and finished with the task loop and the panel. |
| CronnerProperties.LoadConfigOrder | src/Cronner/DI/CronnerExtension.php:59-118 | A successful load appends the four fixed services, then one service per task in task order, then the panel when it is wanted. It keeps every earlier definition. |
| CronnerProperties.CoreServicesDefined | src/Cronner/DI/CronnerExtension.php:59-94 | Once the fixed services are registered, all four names are defined. |
| CronnerProperties.LoadKeepsCoreServices | src/Cronner/DI/CronnerExtension.php:96-120 | The task loop and the panel step of a successful load change none of the fixed services. |
| CronnerProperties.LoadConfigFixedServices | src/Cronner/DI/CronnerExtension.php:59-86 | After a successful load, the storage, the driver and the critical section hold the definitions built from `timestampStorage`, `criticalSectionDriver` and `criticalSectionTempDir`. The driver's lookups see the storage already registered, and the critical section is built on the driver. |
| CronnerProperties.LoadConfigDefinitions | src/Cronner/DI/CronnerExtension.php:88-120 | After a successful load the runner, every task and (when wanted) the panel hold their definitions. The field holds the configured log class. |
| CronnerProperties.PanelRegistered | src/Cronner/DI/CronnerExtension.php:112-118 | After a successful load, `bar` is defined exactly when it already was, or when the `bar` option is truthy and Tracy\Bar exists. |
| CronnerProperties.DefaultsPassChecks | src/Cronner/DI/CronnerExtension.php:37-57 | An empty section merges to the defaults, and the defaults pass every option check. |
| CronnerProperties.DefaultsPanel | src/Cronner/DI/CronnerExtension.php:43-120 | Under the defaults, `bar` is the true string `%debugMode%`, so the panel is wanted exactly when Tracy\Bar exists. No log service is set. |
| CronnerProperties.LoadDefaults | src/Cronner/DI/CronnerExtension.php:53-121 | With an empty section, loading is the fixed services followed by the panel step; the empty task list adds nothing. |
| CronnerProperties.DefaultsPanelFree | src/Cronner/DI/CronnerExtension.php:112-120 | Under the defaults and with `bar` free, the panel step succeeds, registers `bar` exactly when Tracy\Bar exists, and sets no log service. |
| CronnerProperties.DefaultsLoad | src/Cronner/DI/CronnerExtension.php:37-121 | With an empty section and its names free, loading succeeds, registers `bar` exactly when Tracy\Bar exists, and leaves cronLogService null. |
| CronnerProperties.CoreServicesKeepBarFree | src/Cronner/DI/CronnerExtension.php:59-94 | The four fixed services never take the panel's name. |
| CronnerProperties.TaskNameNotPanel | src/Cronner/DI/CronnerExtension.php:98-113 | A task's service name is never the panel's name. |
| CronnerProperties.TaskNamesNotPanel | src/Cronner/DI/CronnerExtension.php:97-113 | No task's service name is the panel's name. |
| CronnerProperties.TaskNameNotCore | src/Cronner/DI/CronnerExtension.php:59-98 | A task's service name is never one of the four fixed names. |
| CronnerProperties.TasksOnlyPassChecks | src/Cronner/DI/CronnerExtension.php:37-57 | A section that sets only `tasks` passes the option checks. |
| CronnerProperties.OneTaskAfterCore | src/Cronner/DI/CronnerExtension.php:97-110 | Right after the fixed services, a single string or Statement task registers, and `bar` stays free. |
| CronnerProperties.PanelStepWhenFree | src/Cronner/DI/CronnerExtension.php:112-120 | With `bar` free and cronLogService null, the panel step and the field assignment succeed. |
| CronnerProperties.OneTaskLoads | src/Cronner/DI/CronnerExtension.php:49-121 | On an empty container, loadConfiguration succeeds on a section holding one string or Statement task. |
| CronnerProperties.OneTaskRun | src/Cronner/DI/CronnerExtension.php:49-147 | For that one-task run, beforeCompile also succeeds, and the runner calls addTasks for the task's service exactly once. |
| Container.Tagged | src/Cronner/DI/CronnerExtension.php:128 | findByTag returns exactly the registered services carrying the tag, without repeats, as a subsequence of the registration order. |
| Container.ContainerBuilder.AddDefinition | src/Cronner/DI/CronnerExtension.php:81 | Adds a blank definition under a free name, last in order. On a taken name it reports failure and changes nothing. |
| Container.ContainerBuilder.SetFactory | src/Cronner/DI/CronnerExtension.php:82-84 | Only that definition's factory changes. |
| Container.ContainerBuilder.SetAutowired | src/Cronner/DI/CronnerExtension.php:85 | Only that definition's autowired flag changes. |
| Container.ContainerBuilder.AddTag | src/Cronner/DI/CronnerExtension.php:86 | Only that definition's tag changes. |
| Container.ContainerBuilder.AddSetup | src/Cronner/DI/CronnerExtension.php:129 | Only that definition's setup grows, by the one call at its end. |
| CronnerDI.LogServiceCheck | src/Cronner/DI/CronnerExtension.php:133-143 | The log service passes exactly when its class exists and has logStart and logEnd. Otherwise the error is the first failing check, in order: class missing, then logStart missing, then logEnd missing. |
| CronnerDI.CompileSetups | src/Cronner/DI/CronnerExtension.php:123-147 | beforeCompile fails without a runner, or with the log check's first error when a log service is set. It succeeds in every other case. It changes only the runner's setup, which gets one addTasks('@' + name) call per tagged service in registration order, then addCronLogService only when a log service is set. |
| Extension.CronnerExtension.CallTasks | src/Cronner/DI/CronnerExtension.php:127-130 | The foreach over the tagged services appends AddTasksCalls of findByTag to the runner's setup and changes nothing else. |
| Extension.CronnerExtension.BeforeCompile | src/Cronner/DI/CronnerExtension.php:123-147 | The builder's new state is what CompileSetups computes from the old state and the cronLogService field; its error is CompileSetups' error. |
| CronnerProperties.AddTasksCallInjective | src/Cronner/DI/CronnerExtension.php:129 | Different services get different addTasks calls. |
| CronnerProperties.AddTasksCallsCount | src/Cronner/DI/CronnerExtension.php:128-129 | Over distinct names each name gets exactly one addTasks call, and other names get none. |
| CronnerProperties.CompileCallsEachTaggedOnce | src/Cronner/DI/CronnerExtension.php:127-130 | beforeCompile adds exactly one addTasks call for each tagged service and none for any other service. |
| CronnerProperties.EachTaskAddedOnce | src/Cronner/DI/CronnerExtension.php:97-130 | After a successful load and beforeCompile, the runner calls every configured task exactly once. |
| Extension.CronnerExtension.AfterCompile | src/Cronner/DI/CronnerExtension.php:154 | The panel is added to the generated container exactly when the `bar` service is defined. |
| CronnerProperties.PanelAddedAfterCompile | src/Cronner/DI/CronnerExtension.php:112-154 | After a successful load and beforeCompile, afterCompile adds the panel exactly when `bar` was defined before the load, or when the option is truthy and Tracy\Bar exists. |

## Left out

- The library queries are arbitrary functions in `Env`: Nette's
  `getServiceName`, `getByType`, `Helpers::expand` and
  `Compiler::filterArguments`, plus `md5`, `Json::encode`, `class_exists` and
  `method_exists`.
  - Their behaviour is library code outside this repository, so it is not
    modelled.
  - They are taken to be pure functions of the container's definitions and of
    their arguments.
  - The exceptions they may throw are not modelled.
- What `getByType` does when several services match is not modelled. It is
  whatever the given function returns.
- md5 and JSON collisions are not modelled.
  - Two tasks whose keys hash alike get the same service name.
  - The model stops such a run at the second name, as it does for any taken
    name (next item).
- `addDefinition` on a name that is already taken is library behaviour.
  - The model stops the run with `ServiceExists`, so that its functions are
    total.
  - `AddService`, `ResolveService`, `RegisterTask` and
    `ContainerBuilder.AddDefinition` state this stop in their contracts.
  - No run-level lemma depends on this case: each assumes a successful run or
    free names.
  - So the model makes no claim about whether the library merges a task that
    is listed twice.
- The builder's state after a failed phase is not specified, except after a
  failed option check. Compilation aborts with the exception.
- afterCompile's code generation (the `addBody` template) is not modelled. Only
  its `hasDefinition` guard is.
- `register()` (the closure pushed onto `Configurator::onCompile`) is plumbing
  with no decision in it.
- The runtime collaborators (Cronner, CriticalSection with its file driver,
  FileStorage, the Tracy panel) are not modelled. Their behaviour is I/O and
  inter-process locking outside the extension.
- tests/CronnerTests/objects/TestExceptionObject.php is a test fixture with no
  logic. It is not part of this model.
- Statement entities are strings only. A Statement whose entity is itself a
  statement or an array callable is not represented.
- `%debugMode%` as the default `bar` value is treated as the literal string it
  is in `$defaults`, which is truthy.
  - Nette expands parameters in the configuration before the extension reads
    it.
  - A configuration where the user's value of `bar` is an expanded false comes
    in as `Bool(false)`, and that case is modelled.
- Configuration keys the extension never reads are not represented in `Config`.
  They have no effect on any phase.
