/**
 * `make`: the keyword arguments of the public constructor folded into the
 * nested configuration dictionary a pipeline is built from.  Every optional
 * argument is written into its dictionary only when given; `metric_config`
 * wins over `metrics`, and `optimizers` wins over the single-optimizer
 * arguments.  The clock reading `timestamp()` is a parameter, `now`.
 */
module MakeApi {
  import opened Wrappers
  import opened Dicts

  /** A configuration value. */
  datatype Value =
    | Null
    | Bool(b: bool)
    | Int(i: int)
    | Num(x: real)
    | Str(s: string)
    | Strs(items: seq<string>)
    | TaskType(name: string)           // what `TaskTypes.from_str` returns for name
    | Object(kind: string)             // any other object, such as a `TimeSeriesConfig`
    | Dict(entries: map<string, Value>)

  type Config = map<string, Value>

  /** The arguments of `make` that shape the configuration; `**kwargs` is the last one. */
  datatype MakeArgs = MakeArgs(
    model: string,
    delim: Option<string>,
    taskType: Option<string>,
    skipFirst: Option<bool>,
    cvSplit: Value,
    minEpoch: Option<int>,
    numEpoch: Option<int>,
    maxEpoch: Option<int>,
    batchSize: Option<int>,
    maxSnapshotNum: Option<int>,
    clipNorm: Option<real>,
    emaDecay: Option<real>,
    tsConfig: Option<Value>,
    aggregation: Option<string>,
    aggregationConfig: Option<Config>,
    tsLabelCollatorConfig: Option<Config>,
    dataConfig: Option<Config>,
    readConfig: Option<Config>,
    modelConfig: Option<Config>,
    metrics: Option<Value>,
    metricConfig: Option<Config>,
    optimizer: Option<string>,
    scheduler: Option<string>,
    optimizerConfig: Option<Config>,
    schedulerConfig: Option<Config>,
    optimizers: Option<Config>,
    loggingFile: Option<string>,
    loggingFolder: Option<string>,
    triggerLogging: Option<bool>,
    useTimingContext: bool,
    useTqdm: bool,
    kwargs: Config)

  /** The `TypeError` of item assignment on an entry that is not a dictionary. */
  datatype MakeError = NotADict(key: string)

  function IntOpt(o: Option<int>): Option<Value> {
    match o case None => None case Some(x) => Some(Int(x))
  }

  function NumOpt(o: Option<real>): Option<Value> {
    match o case None => None case Some(x) => Some(Num(x))
  }

  function StrOpt(o: Option<string>): Option<Value> {
    match o case None => None case Some(x) => Some(Str(x))
  }

  function BoolOpt(o: Option<bool>): Option<Value> {
    match o case None => None case Some(x) => Some(Bool(x))
  }

  function DictOpt(o: Option<Config>): Option<Value> {
    match o case None => None case Some(x) => Some(Dict(x))
  }

  function TaskOpt(o: Option<string>): Option<Value> {
    match o case None => None case Some(x) => Some(TaskType(x))
  }

  /** `setdefault(key, {})` looked up without storing: the entry, or an empty dictionary. */
  function EntryOr(d: Config, key: string): Value {
    if key in d then d[key] else Dict(map[])
  }

  /** `data_config`: the given one (or empty) with the time-series config and `task_type` when given. */
  function DataConfig(a: MakeArgs): Config {
    Overlay(a.dataConfig.GetOr(map[]), [("time_series_config", a.tsConfig), ("task_type", TaskOpt(a.taskType))])
  }

  /** `read_config`: the given one (or empty) with the delimiter and `skip_first` when given. */
  function ReadConfig(a: MakeArgs): Config {
    Overlay(a.readConfig.GetOr(map[]), [("delim", StrOpt(a.delim)), ("skip_first", BoolOpt(a.skipFirst))])
  }

  /** The log file: only with a logging folder, defaulting to `<model>_<timestamp>.log`. */
  function LoggingFile(a: MakeArgs, now: string): Option<string> {
    if a.loggingFolder.None? then None else Some(a.loggingFile.GetOr(a.model + "_" + now + ".log"))
  }

  /** What `make` writes into kwargs itself, in order. */
  function TopFields(a: MakeArgs, now: string): seq<Field<Value>> {
    [ ("model", Some(Str(a.model))), ("cv_split", Some(a.cvSplit)),
      ("use_timing_context", Some(Bool(a.useTimingContext))),
      ("data_config", Some(Dict(DataConfig(a)))), ("read_config", Some(Dict(ReadConfig(a)))),
      ("model_config", DictOpt(a.modelConfig)), ("logging_folder", StrOpt(a.loggingFolder)),
      ("logging_file", StrOpt(LoggingFile(a, now))), ("trigger_logging", BoolOpt(a.triggerLogging)) ]
  }

  /** The general trainer fields: `use_tqdm` always, the others when given. */
  function TrainerFields(a: MakeArgs): seq<Field<Value>> {
    [ ("use_tqdm", Some(Bool(a.useTqdm))), ("min_epoch", IntOpt(a.minEpoch)),
      ("num_epoch", IntOpt(a.numEpoch)), ("max_epoch", IntOpt(a.maxEpoch)),
      ("batch_size", IntOpt(a.batchSize)), ("max_snapshot_num", IntOpt(a.maxSnapshotNum)),
      ("clip_norm", NumOpt(a.clipNorm)), ("ema_decay", NumOpt(a.emaDecay)) ]
  }

  function SamplerFields(a: MakeArgs): seq<Field<Value>> {
    [("aggregation", StrOpt(a.aggregation)), ("aggregation_config", DictOpt(a.aggregationConfig))]
  }

  /** `metric_config` when given, else `{"types": metrics}` when metrics are given, else nothing. */
  function MetricConfig(a: MakeArgs): Option<Config> {
    if a.metricConfig.Some? then a.metricConfig
    else if a.metrics.Some? then Some(map["types" := a.metrics.value])
    else None
  }

  /** The optimizer entries of the "all" preset: an optimizer and a scheduler each with its config, `{}` by default. */
  function Preset(a: MakeArgs): Config {
    var withOptimizer: Config :=
      if a.optimizer.None? then map[]
      else map["optimizer" := Str(a.optimizer.value), "optimizer_config" := Dict(a.optimizerConfig.GetOr(map[]))];
    if a.scheduler.None? then withOptimizer
    else withOptimizer + map["scheduler" := Str(a.scheduler.value), "scheduler_config" := Dict(a.schedulerConfig.GetOr(map[]))]
  }

  /** `optimizers` when given, else the "all" preset when it is not empty, else nothing. */
  function Optimizers(a: MakeArgs): Option<Config> {
    if a.optimizers.Some? then a.optimizers
    else if Preset(a) != map[] then Some(map["all" := Dict(Preset(a))])
    else None
  }

  function TailFields(a: MakeArgs): seq<Field<Value>> {
    [ ("ts_label_collator_config", DictOpt(a.tsLabelCollatorConfig)),
      ("metric_config", DictOpt(MetricConfig(a))), ("optimizers", DictOpt(Optimizers(a))) ]
  }

  /** The sampler config after `setdefault` and the aggregation fields; not a dictionary is an error once a field is to be written. */
  function Sampler(existing: Value, a: MakeArgs): Result<Value, MakeError> {
    if existing.Dict? then Ok(Dict(Overlay(existing.entries, SamplerFields(a))))
    else if a.aggregation.Some? || a.aggregationConfig.Some? then Err(NotADict("sampler_config"))
    else Ok(existing)
  }

  /** The trainer config laid over the one in kwargs, or the error of writing into a non-dictionary. */
  function TrainerConfig(a: MakeArgs): Result<Config, MakeError> {
    var existing := EntryOr(a.kwargs, "trainer_config");
    if !existing.Dict? then Err(NotADict("trainer_config"))
    else
      var general := Overlay(existing.entries, TrainerFields(a));
      match Sampler(EntryOr(general, "sampler_config"), a)
      case Err(e) => Err(e)
      case Ok(sampler) => Ok(Overlay(general["sampler_config" := sampler], TailFields(a)))
  }

  /** The whole configuration `make` hands to the pipeline. */
  function MakeConfig(a: MakeArgs, now: string): (r: Result<Config, MakeError>)
    ensures r.Ok? ==> "trainer_config" in r.value && r.value["trainer_config"].Dict?
  {
    match TrainerConfig(a)
    case Err(e) => Err(e)
    case Ok(trainer) => Ok(Overlay(a.kwargs, TopFields(a, now))["trainer_config" := Dict(trainer)])
  }

  /** The statement `if value is not None: d[key] = value`. */
  method SetIfGiven(d: Config, key: string, value: Option<Value>) returns (r: Config)
    ensures r == Put(d, (key, value))
    ensures value.Some? ==> r == d[key := value.value]
    ensures value.None? ==> r == d
  {
    r := d;
    if value.Some? {
      r := r[key := value.value];
    }
  }

  /** The "pipeline general" block of `make`: the entries it writes into kwargs. */
  method GeneralKwargs(a: MakeArgs, now: string) returns (kwargs: Config)
    ensures kwargs == Overlay(a.kwargs, TopFields(a, now))
  {
    kwargs := a.kwargs;
    kwargs := kwargs["model" := Str(a.model)];
    kwargs := kwargs["cv_split" := a.cvSplit];
    kwargs := kwargs["use_timing_context" := Bool(a.useTimingContext)];
    var dataConfig := a.dataConfig.GetOr(map[]);
    dataConfig := SetIfGiven(dataConfig, "time_series_config", a.tsConfig);
    dataConfig := SetIfGiven(dataConfig, "task_type", TaskOpt(a.taskType));
    var readConfig := a.readConfig.GetOr(map[]);
    readConfig := SetIfGiven(readConfig, "delim", StrOpt(a.delim));
    readConfig := SetIfGiven(readConfig, "skip_first", BoolOpt(a.skipFirst));
    Overlay2(a.dataConfig.GetOr(map[]), ("time_series_config", a.tsConfig), ("task_type", TaskOpt(a.taskType)));
    Overlay2(a.readConfig.GetOr(map[]), ("delim", StrOpt(a.delim)), ("skip_first", BoolOpt(a.skipFirst)));
    kwargs := kwargs["data_config" := Dict(dataConfig)];
    kwargs := kwargs["read_config" := Dict(readConfig)];
    kwargs := SetIfGiven(kwargs, "model_config", DictOpt(a.modelConfig));
    var loggingFile := a.loggingFile;
    if a.loggingFolder.Some? {
      if loggingFile.None? {
        loggingFile := Some(a.model + "_" + now + ".log");
      }
      kwargs := kwargs["logging_folder" := Str(a.loggingFolder.value)];
      kwargs := kwargs["logging_file" := Str(loggingFile.value)];
    }
    kwargs := SetIfGiven(kwargs, "trigger_logging", BoolOpt(a.triggerLogging));
    TopUnrolled(a, now);
  }

  /** The general fields of the "trainer general" block, written into the trainer config. */
  method GeneralTrainer(a: MakeArgs, existing: Config) returns (trainerConfig: Config)
    ensures trainerConfig == Overlay(existing, TrainerFields(a))
  {
    trainerConfig := existing;
    trainerConfig := trainerConfig["use_tqdm" := Bool(a.useTqdm)];
    trainerConfig := SetIfGiven(trainerConfig, "min_epoch", IntOpt(a.minEpoch));
    trainerConfig := SetIfGiven(trainerConfig, "num_epoch", IntOpt(a.numEpoch));
    trainerConfig := SetIfGiven(trainerConfig, "max_epoch", IntOpt(a.maxEpoch));
    trainerConfig := SetIfGiven(trainerConfig, "batch_size", IntOpt(a.batchSize));
    trainerConfig := SetIfGiven(trainerConfig, "max_snapshot_num", IntOpt(a.maxSnapshotNum));
    trainerConfig := SetIfGiven(trainerConfig, "clip_norm", NumOpt(a.clipNorm));
    trainerConfig := SetIfGiven(trainerConfig, "ema_decay", NumOpt(a.emaDecay));
    TrainerUnrolled(a, existing);
  }

  /** The aggregation fields written into the sampler config that `setdefault` found or made. */
  method SamplerStep(a: MakeArgs, existing: Value) returns (r: Result<Value, MakeError>)
    ensures r == Sampler(existing, a)
  {
    var samplerConfig := existing;
    if a.aggregation.Some? {
      if !samplerConfig.Dict? {
        return Err(NotADict("sampler_config"));
      }
      samplerConfig := Dict(samplerConfig.entries["aggregation" := Str(a.aggregation.value)]);
    }
    if a.aggregationConfig.Some? {
      if !samplerConfig.Dict? {
        return Err(NotADict("sampler_config"));
      }
      samplerConfig := Dict(samplerConfig.entries["aggregation_config" := Dict(a.aggregationConfig.value)]);
    }
    SamplerUnrolled(a, existing);
    r := Ok(samplerConfig);
  }

  /** The "metrics" block: the metric config `make` settles on, if any. */
  method Metrics(a: MakeArgs) returns (metricConfig: Option<Config>)
    ensures metricConfig == MetricConfig(a)
  {
    metricConfig := a.metricConfig;
    if metricConfig.None? && a.metrics.Some? {
      metricConfig := Some(map["types" := a.metrics.value]);
    }
  }

  /** The "optimizers" block: the optimizers `make` settles on, if any. */
  method SettleOptimizers(a: MakeArgs) returns (optimizers: Option<Config>)
    ensures optimizers == Optimizers(a)
  {
    optimizers := a.optimizers;
    if optimizers.None? {
      var presetOptimizer: Config := map[];
      if a.optimizer.Some? {
        var optimizerConfig := a.optimizerConfig.GetOr(map[]);
        presetOptimizer := map["optimizer" := Str(a.optimizer.value), "optimizer_config" := Dict(optimizerConfig)];
      }
      if a.scheduler.Some? {
        var schedulerConfig := a.schedulerConfig.GetOr(map[]);
        presetOptimizer := presetOptimizer + map["scheduler" := Str(a.scheduler.value), "scheduler_config" := Dict(schedulerConfig)];
      }
      if presetOptimizer != map[] {
        optimizers := Some(map["all" := Dict(presetOptimizer)]);
      }
    }
  }

  /**
   * `make`, block by block, on local dictionaries.  It fails exactly when
   * the trainer config in kwargs is not a dictionary, or the sampler config
   * in it is not one and an aggregation field is to be written.
   */
  method Make(a: MakeArgs, now: string) returns (r: Result<Config, MakeError>)
    ensures r == MakeConfig(a, now)
    ensures r.Err? <==>
      || !EntryOr(a.kwargs, "trainer_config").Dict?
      || (&& !EntryOr(EntryOr(a.kwargs, "trainer_config").entries, "sampler_config").Dict?
          && (a.aggregation.Some? || a.aggregationConfig.Some?))
  {
    var kwargs := GeneralKwargs(a, now);
    var existing := EntryOr(kwargs, "trainer_config");
    assert existing == EntryOr(a.kwargs, "trainer_config") by {
      OverlayKeeps(a.kwargs, TopFields(a, now), "trainer_config");
    }
    if !existing.Dict? {
      return Err(NotADict("trainer_config"));
    }
    var trainerConfig := GeneralTrainer(a, existing.entries);
    ghost var general := trainerConfig;
    assert EntryOr(general, "sampler_config") == EntryOr(existing.entries, "sampler_config") by {
      OverlayKeeps(existing.entries, TrainerFields(a), "sampler_config");
    }
    var sampler := SamplerStep(a, EntryOr(trainerConfig, "sampler_config"));
    if sampler.Err? {
      return Err(sampler.error);
    }
    trainerConfig := trainerConfig["sampler_config" := sampler.value];
    if a.tsLabelCollatorConfig.Some? {
      trainerConfig := trainerConfig["ts_label_collator_config" := Dict(a.tsLabelCollatorConfig.value)];
    }
    var metricConfig := Metrics(a);
    if metricConfig.Some? {
      trainerConfig := trainerConfig["metric_config" := Dict(metricConfig.value)];
    }
    var optimizers := SettleOptimizers(a);
    if optimizers.Some? {
      trainerConfig := trainerConfig["optimizers" := Dict(optimizers.value)];
    }
    var tail := TailFields(a);
    Overlay3(general["sampler_config" := sampler.value], tail[0], tail[1], tail[2]);
    assert tail == [tail[0], tail[1], tail[2]];
    kwargs := kwargs["trainer_config" := Dict(trainerConfig)];
    r := Ok(kwargs);
  }

  /** The kwargs fields, written out. */
  lemma TopUnrolled(a: MakeArgs, now: string)
    ensures Overlay(a.kwargs, TopFields(a, now))
      == Put(Put(Put(Put(Put(Put(Put(Put(Put(a.kwargs, ("model", Some(Str(a.model)))), ("cv_split", Some(a.cvSplit))),
           ("use_timing_context", Some(Bool(a.useTimingContext)))),
           ("data_config", Some(Dict(DataConfig(a))))), ("read_config", Some(Dict(ReadConfig(a))))),
           ("model_config", DictOpt(a.modelConfig))), ("logging_folder", StrOpt(a.loggingFolder))),
           ("logging_file", StrOpt(LoggingFile(a, now)))), ("trigger_logging", BoolOpt(a.triggerLogging)))
  {
    var fs := TopFields(a, now);
    OverlayAppend(a.kwargs, fs[..8], [fs[8]]);
    assert fs[..8] + [fs[8]] == fs;
    assert [fs[8]][1..] == [];
    assert fs[..8] == [fs[0], fs[1], fs[2], fs[3], fs[4], fs[5], fs[6], fs[7]];
    Overlay8(a.kwargs, fs[0], fs[1], fs[2], fs[3], fs[4], fs[5], fs[6], fs[7]);
  }

  /** The general trainer fields, written out. */
  lemma TrainerUnrolled(a: MakeArgs, d: Config)
    ensures Overlay(d, TrainerFields(a))
      == Put(Put(Put(Put(Put(Put(Put(Put(d, ("use_tqdm", Some(Bool(a.useTqdm)))),
           ("min_epoch", IntOpt(a.minEpoch))), ("num_epoch", IntOpt(a.numEpoch))), ("max_epoch", IntOpt(a.maxEpoch))),
           ("batch_size", IntOpt(a.batchSize))), ("max_snapshot_num", IntOpt(a.maxSnapshotNum))),
           ("clip_norm", NumOpt(a.clipNorm))), ("ema_decay", NumOpt(a.emaDecay)))
  {
    var fs := TrainerFields(a);
    Overlay8(d, fs[0], fs[1], fs[2], fs[3], fs[4], fs[5], fs[6], fs[7]);
  }

  /** The sampler fields, written out. */
  lemma SamplerUnrolled(a: MakeArgs, existing: Value)
    ensures existing.Dict? ==>
      Overlay(existing.entries, SamplerFields(a)) == Put(Put(existing.entries, SamplerFields(a)[0]), SamplerFields(a)[1])
  {
    if existing.Dict? {
      Overlay2(existing.entries, SamplerFields(a)[0], SamplerFields(a)[1]);
    }
  }

  /** The trainer config inside a configuration, empty when there is none. */
  function Trainer(cfg: Config): Config {
    if "trainer_config" in cfg && cfg["trainer_config"].Dict? then cfg["trainer_config"].entries else map[]
  }

  /** The trainer config found in kwargs, empty when there is none. */
  function GivenTrainer(a: MakeArgs): Config {
    var existing := EntryOr(a.kwargs, "trainer_config");
    if existing.Dict? then existing.entries else map[]
  }

  /** The trainer block's three stages: general fields over the given config, the sampler config, the tail fields. */
  function Staged(given: Config, general: seq<Field<Value>>, sampler: Value, tail: seq<Field<Value>>): Config {
    Overlay(Overlay(given, general)["sampler_config" := sampler], tail)
  }

  /** The sampler config the trainer block settles on, Null when that step fails. */
  function SamplerOf(a: MakeArgs): Value {
    var r := Sampler(EntryOr(Overlay(GivenTrainer(a), TrainerFields(a)), "sampler_config"), a);
    if r.Ok? then r.value else Null
  }

  /** An accepted configuration's trainer config is the three stages over the given one. */
  lemma TrainerShape(a: MakeArgs, now: string)
    requires MakeConfig(a, now).Ok?
    ensures Trainer(MakeConfig(a, now).value) == Staged(GivenTrainer(a), TrainerFields(a), SamplerOf(a), TailFields(a))
  {
  }

  /** A key that neither the sampler stage nor a tail field writes keeps what the general stage left there. */
  lemma StagedKeeps(given: Config, general: seq<Field<Value>>, sampler: Value, tail: seq<Field<Value>>, k: string)
    requires k != "sampler_config" && !GivenKey(tail, k)
    ensures var t, g := Staged(given, general, sampler, tail), Overlay(given, general);
      (k in t <==> k in g) && (k in g ==> t[k] == g[k])
  {
    OverlayKeeps(Overlay(given, general)["sampler_config" := sampler], tail, k);
  }

  /** No tail field writes the sampler config: it is what the sampler stage set. */
  lemma StagedSampler(given: Config, general: seq<Field<Value>>, sampler: Value, tail: seq<Field<Value>>)
    requires !GivenKey(tail, "sampler_config")
    ensures var t := Staged(given, general, sampler, tail);
      "sampler_config" in t && t["sampler_config"] == sampler
  {
    OverlayKeeps(Overlay(given, general)["sampler_config" := sampler], tail, "sampler_config");
  }

  /** A general field the later stages do not write is what its key holds when given, and the given entry otherwise. */
  lemma StagedAt(given: Config, general: seq<Field<Value>>, sampler: Value, tail: seq<Field<Value>>, i: nat)
    requires DistinctKeys(general) && i < |general|
    requires general[i].0 != "sampler_config" && !GivenKey(tail, general[i].0)
    ensures var t, f := Staged(given, general, sampler, tail), general[i];
      && (f.1.Some? ==> f.0 in t && t[f.0] == f.1.value)
      && (f.1.None? ==> (f.0 in t <==> f.0 in given) && (f.0 in given ==> t[f.0] == given[f.0]))
  {
    StagedKeeps(given, general, sampler, tail, general[i].0);
    OverlayAt(given, general, i);
  }

  /** A key no step of the trainer block writes keeps its entry of the given trainer config, or its absence. */
  lemma TrainerKeeps(a: MakeArgs, now: string, k: string)
    requires MakeConfig(a, now).Ok?
    requires !GivenKey(TrainerFields(a), k) && k != "sampler_config" && !GivenKey(TailFields(a), k)
    ensures var t, given := Trainer(MakeConfig(a, now).value), GivenTrainer(a);
      (k in t <==> k in given) && (k in given ==> t[k] == given[k])
  {
    TrainerShape(a, now);
    OverlayKeeps(GivenTrainer(a), TrainerFields(a), k);
    StagedKeeps(GivenTrainer(a), TrainerFields(a), SamplerOf(a), TailFields(a), k);
  }

  /** Given, a tail field of the trainer block -- collator config, metric config, optimizers -- is what its key holds. */
  lemma TailSets(a: MakeArgs, now: string, i: nat)
    requires MakeConfig(a, now).Ok? && i < 3 && TailFields(a)[i].1.Some?
    ensures var t := Trainer(MakeConfig(a, now).value);
      TailFields(a)[i].0 in t && t[TailFields(a)[i].0] == TailFields(a)[i].1.value
  {
    TrainerShape(a, now);
    OverlayAt(Overlay(GivenTrainer(a), TrainerFields(a))["sampler_config" := SamplerOf(a)], TailFields(a), i);
  }

  /**
   * A given `metric_config` is what the trainer config gets, whatever
   * `metrics` is; otherwise given `metrics` become `{"types": metrics}`;
   * with neither, the entry of the given trainer config stays as it was.
   */
  lemma MetricPrecedence(a: MakeArgs, now: string)
    requires MakeConfig(a, now).Ok?
    ensures var t, given := Trainer(MakeConfig(a, now).value), GivenTrainer(a);
      && (a.metricConfig.Some? ==> "metric_config" in t && t["metric_config"] == Dict(a.metricConfig.value))
      && (a.metricConfig.None? && a.metrics.Some? ==>
            "metric_config" in t && t["metric_config"] == Dict(map["types" := a.metrics.value]))
      && (a.metricConfig.None? && a.metrics.None? ==>
            ("metric_config" in t <==> "metric_config" in given)
            && ("metric_config" in given ==> t["metric_config"] == given["metric_config"]))
  {
    if MetricConfig(a).Some? {
      TailSets(a, now, 1);
    } else {
      TrainerKeeps(a, now, "metric_config");
    }
  }

  /**
   * Given `optimizers` are what the trainer config gets, and `optimizer`,
   * `optimizer_config` and the scheduler arguments are ignored; otherwise
   * an optimizer or a scheduler gives the `"all"` preset; with neither,
   * the entry of the given trainer config stays as it was.
   */
  lemma OptimizersPrecedence(a: MakeArgs, now: string)
    requires MakeConfig(a, now).Ok?
    ensures var t, given := Trainer(MakeConfig(a, now).value), GivenTrainer(a);
      && (a.optimizers.Some? ==> "optimizers" in t && t["optimizers"] == Dict(a.optimizers.value))
      && (a.optimizers.None? && (a.optimizer.Some? || a.scheduler.Some?) ==>
            "optimizers" in t && t["optimizers"] == Dict(map["all" := Dict(Preset(a))]))
      && (a.optimizers.None? && a.optimizer.None? && a.scheduler.None? ==>
            ("optimizers" in t <==> "optimizers" in given)
            && ("optimizers" in given ==> t["optimizers"] == given["optimizers"]))
  {
    if a.optimizers.None? && a.optimizer.Some? {
      assert "optimizer" in Preset(a);
    }
    if a.optimizers.None? && a.scheduler.Some? {
      assert "scheduler" in Preset(a);
    }
    if Optimizers(a).Some? {
      TailSets(a, now, 2);
    } else {
      TrainerKeeps(a, now, "optimizers");
    }
  }

  /**
   * The `"all"` preset holds the optimizer with its config (`{}` when
   * none is given) exactly when an optimizer is given, the scheduler with
   * its config exactly when a scheduler is given, and nothing else: an
   * `optimizer_config` without an optimizer is dropped.
   */
  lemma PresetEntries(a: MakeArgs)
    ensures var p := Preset(a);
      && ("optimizer" in p <==> a.optimizer.Some?) && ("optimizer_config" in p <==> a.optimizer.Some?)
      && ("scheduler" in p <==> a.scheduler.Some?) && ("scheduler_config" in p <==> a.scheduler.Some?)
      && (a.optimizer.Some? ==>
            p["optimizer"] == Str(a.optimizer.value) && p["optimizer_config"] == Dict(a.optimizerConfig.GetOr(map[])))
      && (a.scheduler.Some? ==>
            p["scheduler"] == Str(a.scheduler.value) && p["scheduler_config"] == Dict(a.schedulerConfig.GetOr(map[])))
      && (forall k :: k in p ==> k in {"optimizer", "optimizer_config", "scheduler", "scheduler_config"})
  {
  }

  /** The general trainer fields are not among the keys the tail of the block writes. */
  lemma TrainerKeyNotInTail(a: MakeArgs, i: nat)
    requires i < |TrainerFields(a)|
    ensures DistinctKeys(TrainerFields(a))
    ensures TrainerFields(a)[i].0 != "sampler_config" && !GivenKey(TailFields(a), TrainerFields(a)[i].0)
  {
    var k := TrainerFields(a)[i].0;
    forall j | 0 <= j < |TailFields(a)| ensures TailFields(a)[j].0 != k {
    }
  }

  /**
   * Every general trainer field (`use_tqdm`, the epochs, batch size,
   * snapshot count, clip norm, EMA decay) is written when given and
   * otherwise leaves the given trainer config's entry as it was.
   */
  lemma TrainerFieldsWhenGiven(a: MakeArgs, now: string, i: nat)
    requires MakeConfig(a, now).Ok? && i < |TrainerFields(a)|
    ensures var t, given, f := Trainer(MakeConfig(a, now).value), GivenTrainer(a), TrainerFields(a)[i];
      && (f.1.Some? ==> f.0 in t && t[f.0] == f.1.value)
      && (f.1.None? ==> (f.0 in t <==> f.0 in given) && (f.0 in given ==> t[f.0] == given[f.0]))
  {
    TrainerShape(a, now);
    TrainerKeyNotInTail(a, i);
    StagedAt(GivenTrainer(a), TrainerFields(a), SamplerOf(a), TailFields(a), i);
  }

  /** `use_tqdm` is always written, overriding the given trainer config. */
  lemma UseTqdmAlwaysSet(a: MakeArgs, now: string)
    requires MakeConfig(a, now).Ok?
    ensures var t := Trainer(MakeConfig(a, now).value);
      "use_tqdm" in t && t["use_tqdm"] == Bool(a.useTqdm)
  {
    TrainerFieldsWhenGiven(a, now, 0);
  }

  /**
   * The trainer config always ends up with a sampler config: the given
   * one with the aggregation fields laid over it when it is a dictionary,
   * a fresh one holding only those fields when there was none.
   */
  lemma SamplerAlwaysSet(a: MakeArgs, now: string)
    requires MakeConfig(a, now).Ok?
    ensures var t, given := Trainer(MakeConfig(a, now).value), GivenTrainer(a);
      && "sampler_config" in t
      && ("sampler_config" !in given ==> t["sampler_config"] == Dict(Overlay(map[], SamplerFields(a))))
      && ("sampler_config" in given && given["sampler_config"].Dict? ==>
            t["sampler_config"] == Dict(Overlay(given["sampler_config"].entries, SamplerFields(a))))
  {
    TrainerShape(a, now);
    OverlayKeeps(GivenTrainer(a), TrainerFields(a), "sampler_config");
    StagedSampler(GivenTrainer(a), TrainerFields(a), SamplerOf(a), TailFields(a));
  }

  /** An accepted configuration is kwargs with the top-level fields laid over it and the trainer config stored. */
  lemma TopShape(a: MakeArgs, now: string)
    requires MakeConfig(a, now).Ok?
    ensures MakeConfig(a, now).value == Overlay(a.kwargs, TopFields(a, now))["trainer_config" := Dict(TrainerConfig(a).value)]
  {
  }

  /** A field of a list without repeated keys, other than the trainer config, survives storing the trainer config. */
  lemma StoredAt(d: Config, fields: seq<Field<Value>>, trainer: Value, i: nat)
    requires DistinctKeys(fields) && i < |fields| && fields[i].0 != "trainer_config"
    ensures var cfg, f := Overlay(d, fields)["trainer_config" := trainer], fields[i];
      && (f.1.Some? ==> f.0 in cfg && cfg[f.0] == f.1.value)
      && (f.1.None? ==> (f.0 in cfg <==> f.0 in d) && (f.0 in d ==> cfg[f.0] == d[f.0]))
  {
    OverlayAt(d, fields, i);
  }

  /** The top-level keys are distinct and none of them is the trainer config. */
  lemma TopKeys(a: MakeArgs, now: string, i: nat)
    requires i < |TopFields(a, now)|
    ensures DistinctKeys(TopFields(a, now)) && TopFields(a, now)[i].0 != "trainer_config"
  {
  }

  /**
   * Each top-level field `make` writes into kwargs -- model, `cv_split`,
   * `use_timing_context`, data and read configs always, the model config,
   * logging folder, log file and `trigger_logging` when given -- is what
   * the configuration holds under its key, and an absent one leaves the
   * kwargs entry as it was.
   */
  lemma TopFieldAt(a: MakeArgs, now: string, i: nat)
    requires MakeConfig(a, now).Ok? && i < |TopFields(a, now)|
    ensures var cfg, f := MakeConfig(a, now).value, TopFields(a, now)[i];
      && (f.1.Some? ==> f.0 in cfg && cfg[f.0] == f.1.value)
      && (f.1.None? ==> (f.0 in cfg <==> f.0 in a.kwargs) && (f.0 in a.kwargs ==> cfg[f.0] == a.kwargs[f.0]))
  {
    TopShape(a, now);
    TopKeys(a, now, i);
    StoredAt(a.kwargs, TopFields(a, now), Dict(TrainerConfig(a).value), i);
  }

  /**
   * The model name, `cv_split`, `use_timing_context` and the data and read
   * configs are always written, whatever kwargs held.
   */
  lemma AlwaysWritten(a: MakeArgs, now: string)
    requires MakeConfig(a, now).Ok?
    ensures var cfg := MakeConfig(a, now).value;
      && "model" in cfg && cfg["model"] == Str(a.model)
      && "cv_split" in cfg && cfg["cv_split"] == a.cvSplit
      && "use_timing_context" in cfg && cfg["use_timing_context"] == Bool(a.useTimingContext)
      && "data_config" in cfg && cfg["data_config"] == Dict(DataConfig(a))
      && "read_config" in cfg && cfg["read_config"] == Dict(ReadConfig(a))
  {
    TopFieldAt(a, now, 0);
    TopFieldAt(a, now, 1);
    TopFieldAt(a, now, 2);
    TopFieldAt(a, now, 3);
    TopFieldAt(a, now, 4);
  }

  /**
   * With a logging folder, the folder and a log file are written, the log
   * file defaulting to `<model>_<now>.log`; without one, neither is, and
   * a given log file is ignored.
   */
  lemma LoggingDefaults(a: MakeArgs, now: string)
    requires MakeConfig(a, now).Ok?
    ensures var cfg := MakeConfig(a, now).value;
      && (a.loggingFolder.Some? ==>
            && "logging_folder" in cfg && cfg["logging_folder"] == Str(a.loggingFolder.value)
            && "logging_file" in cfg && cfg["logging_file"] == Str(a.loggingFile.GetOr(a.model + "_" + now + ".log")))
      && (a.loggingFolder.None? ==>
            && ("logging_folder" in cfg <==> "logging_folder" in a.kwargs)
            && ("logging_folder" in a.kwargs ==> cfg["logging_folder"] == a.kwargs["logging_folder"])
            && ("logging_file" in cfg <==> "logging_file" in a.kwargs)
            && ("logging_file" in a.kwargs ==> cfg["logging_file"] == a.kwargs["logging_file"]))
  {
    TopFieldAt(a, now, 6);
    TopFieldAt(a, now, 7);
  }

  /** The configuration's keys: those of kwargs, the top-level fields given, and the trainer config. */
  lemma ConfigKeys(a: MakeArgs, now: string)
    requires MakeConfig(a, now).Ok?
    ensures var cfg := MakeConfig(a, now).value;
      forall k :: k in cfg <==> k in a.kwargs || GivenKey(TopFields(a, now), k) || k == "trainer_config"
  {
    TopShape(a, now);
    OverlayKeys(a.kwargs, TopFields(a, now));
  }

  /** Any other entry of kwargs reaches the configuration untouched. */
  lemma UserKwargsKept(a: MakeArgs, now: string, k: string)
    requires MakeConfig(a, now).Ok?
    requires k in a.kwargs && !GivenKey(TopFields(a, now), k) && k != "trainer_config"
    ensures var cfg := MakeConfig(a, now).value;
      k in cfg && cfg[k] == a.kwargs[k]
  {
    TopShape(a, now);
    OverlayKeeps(a.kwargs, TopFields(a, now), k);
  }

  /**
   * The data config holds the time-series config and `task_type` when
   * given; otherwise the entries of the given data config stay as they
   * were, and there are none without one.  Likewise the read config with
   * the delimiter and `skip_first`.
   */
  lemma DataAndReadFields(a: MakeArgs)
    ensures var dc, given := DataConfig(a), a.dataConfig.GetOr(map[]);
      && (a.tsConfig.Some? ==> "time_series_config" in dc && dc["time_series_config"] == a.tsConfig.value)
      && (a.tsConfig.None? ==>
            ("time_series_config" in dc <==> "time_series_config" in given)
            && ("time_series_config" in given ==> dc["time_series_config"] == given["time_series_config"]))
      && (a.taskType.Some? ==> "task_type" in dc && dc["task_type"] == TaskType(a.taskType.value))
      && (a.taskType.None? ==>
            ("task_type" in dc <==> "task_type" in given)
            && ("task_type" in given ==> dc["task_type"] == given["task_type"]))
    ensures var rc, given := ReadConfig(a), a.readConfig.GetOr(map[]);
      && (a.delim.Some? ==> "delim" in rc && rc["delim"] == Str(a.delim.value))
      && (a.delim.None? ==> ("delim" in rc <==> "delim" in given) && ("delim" in given ==> rc["delim"] == given["delim"]))
      && (a.skipFirst.Some? ==> "skip_first" in rc && rc["skip_first"] == Bool(a.skipFirst.value))
      && (a.skipFirst.None? ==>
            ("skip_first" in rc <==> "skip_first" in given)
            && ("skip_first" in given ==> rc["skip_first"] == given["skip_first"]))
  {
    var df := [("time_series_config", a.tsConfig), ("task_type", TaskOpt(a.taskType))];
    OverlayAt(a.dataConfig.GetOr(map[]), df, 0);
    OverlayAt(a.dataConfig.GetOr(map[]), df, 1);
    var rf := [("delim", StrOpt(a.delim)), ("skip_first", BoolOpt(a.skipFirst))];
    OverlayAt(a.readConfig.GetOr(map[]), rf, 0);
    OverlayAt(a.readConfig.GetOr(map[]), rf, 1);
  }
}
