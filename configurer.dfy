/** The agent's configuration client (Puppet::Configurer): one run prepares
    (state file, plugins, prerun hook), obtains a catalog (given, fetched
    fresh, or taken from the cache), applies it, and then, on every way out
    of the run, clears the HTTP connections and runs the postrun hook; if that
    passes, it closes the report's log destination and sends the report. The collaborators are not
    modelled; what each of them does in a run is an input, and every call to
    them and every message logged is recorded in a trace. */
module Configurer {
  import opened RubyValues
  import opened RubyText

  // ---------------------------------------------------------------------------
  // Inputs

  /** The settings the client reads. */
  datatype Settings = Settings(
    certname: string,          // Puppet[:certname]
    useCacheOnFailure: bool,   // Puppet[:usecacheonfailure]
    summarize: bool,           // Puppet[:summarize]
    report: bool,              // Puppet[:report]
    prerunCommand: string,     // Puppet[:prerun_command]
    postrunCommand: string)    // Puppet[:postrun_command]

  /** A catalog as the terminus returns it. */
  datatype WireCatalog = WireCatalog(name: string, version: int)

  /** A catalog after convert_catalog: the RAL catalog of `source`. */
  datatype HostCatalog = HostCatalog(source: WireCatalog, finalized: bool, retrievalDuration: nat,
                                     hostConfig: bool, classFileWritten: bool)

  /** One Catalog.find: what it returned or raised, and how long it took. */
  datatype Attempt = Attempt(result: Result<Option<WireCatalog>>, duration: nat)

  /** The state file on disk: missing, readable (with the compile time cached
      in it, nil when none), or unreadable. */
  datatype StateFile = Absent | Intact(compileTime: RValue) | Corrupt

  /** What each collaborator does when the run calls it. */
  datatype Collaborators = Collaborators(
    stateFile: StateFile,   // the state file when the run starts
    canUnlink: bool,        // whether File.unlink of the state file succeeds
    plugins: Outcome,       // download_plugins
    factPlugins: Outcome,   // download_fact_plugins
    prerun: Outcome,        // Puppet::Util.execute of the prerun command
    facts: Outcome,         // facts_for_uploading
    remote: Attempt,        // Catalog.find with :ignore_cache
    cached: Attempt,        // Catalog.find with :ignore_terminus
    apply: Outcome,         // catalog.apply (a transaction when it passes)
    postrun: Outcome,       // Puppet::Util.execute of the postrun command
    save: Outcome)          // report.save

  /** A value in the options hash of `run`. */
  datatype OptionValue = Plain(value: RValue) | CatalogArg(catalog: HostCatalog)

  /** `if catalog = options[:catalog]`: a missing key reads as nil. */
  predicate OptionTruthy(v: OptionValue) {
    v.CatalogArg? || Truthy(v.value)
  }

  // ---------------------------------------------------------------------------
  // The trace

  datatype FindMode = IgnoreCache | IgnoreTerminus

  datatype Hook = PrerunCommand | PostrunCommand

  /** The messages the client logs. */
  datatype Message =
    | CorruptStateFile | PrepareFailed | FetchFailed | NoCacheOnFailure
    | UsingCachedCatalog | CacheFailed | SkippingRun | ApplyFailed | ReportFailed

  /** A call to a collaborator, or a message logged. */
  datatype Action =
    | LoadState | UnlinkState
    | DownloadPlugins | DownloadFactPlugins
    | RunCommand(hook: Hook, command: string)
    | UploadFacts | Find(name: string, mode: FindMode) | Convert(catalog: HostCatalog)
    | NewLogDestination | Apply(options: map<string, OptionValue>)
    | ClearHttp | CloseLog(withReport: bool)
    | AddMetrics | PrintSummary | SaveReport
    | ClearCatalog
    | Log(message: Message)

  // ---------------------------------------------------------------------------
  // timeout and execute_from_setting

  /** Configurer.timeout on Puppet[:configtimeout]: an Integer as it is (zero
      and negatives included), a String with a line of digits through
      Kernel#Integer, anything else an ArgumentError. */
  function Timeout(configTimeout: RValue): (r: Result<int>)
    ensures configTimeout.Int? ==> r == Ok(configTimeout.i)
    ensures !(configTimeout.Int? || configTimeout.Str?) ==> r == Err(ArgumentError)
    ensures configTimeout.Str? && !HasDigitLine(configTimeout.s) ==> r == Err(ArgumentError)
    ensures r.Err? ==> r.error == ArgumentError
    ensures configTimeout.Str? && r.Ok? ==> r.value >= 0
  {
    match configTimeout
    case Int(i) => Ok(i)
    case Str(s) =>
      if !HasDigitLine(s) then Err(ArgumentError)
      else (match IntegerOf(s)
            case Some(n) => Ok(n)
            case None => Err(ArgumentError))
    case _ => Err(ArgumentError)
  }

  /** A timeout given as a run of digits is read in decimal, unless it starts
      with 0: then it is octal, and an 8 or a 9 in it is an ArgumentError. */
  lemma TimeoutDigits(s: string)
    requires s != [] && AllDigits(s)
    ensures Timeout(Str(s)) ==
              if s[0] != '0' then Ok(NumberValue(s, 10))
              else if AllOctal(s) then Ok(NumberValue(s, 8))
              else Err(ArgumentError)
  {
    SingleLinePatterns(s);
    StripDigits(s);
  }

  /** An example of TimeoutDigits: "010" is eight seconds. */
  lemma TimeoutLeadingZero()
    ensures Timeout(Str("010")) == Ok(8)
  {
    var s := "010";
    assert AllOctal(s);
    TimeoutDigits(s);
    assert s[..2] == "01" && s[..2][..1] == "0" && s[..1][..0] == "";
    assert NumberValue("0", 8) == 0;
    assert NumberValue("01", 8) == 1;
    assert NumberValue(s, 8) == 8;
  }

  /** An example of TimeoutDigits: "09" is refused. */
  lemma TimeoutNotOctal()
    ensures Timeout(Str("09")) == Err(ArgumentError)
  {
    TimeoutDigits("09");
    assert !IsOctalDigit("09"[1]);
  }

  /** execute_from_setting: nothing for an empty command; otherwise the
      command runs, and a StandardError from it becomes CommandHookError
      (anything else passes through). */
  function ExecuteFromSetting(hook: Hook, command: string, exec: Outcome): (r: (seq<Action>, Outcome))
    ensures command == "" ==> r == ([], Pass)
    ensures command != "" ==> r.0 == [RunCommand(hook, command)]
    ensures r.1.Fail? <==> command != "" && exec.Fail?
    ensures r.1.Fail? && exec.error.IsStandard() ==> r.1.error == CommandHookError
    ensures r.1.Fail? && !exec.error.IsStandard() ==> r.1.error == exec.error
  {
    if command == "" then ([], Pass)
    else
      match exec
      case Pass => ([RunCommand(hook, command)], Pass)
      case Fail(e) => ([RunCommand(hook, command)], Fail(if e.IsStandard() then CommandHookError else e))
  }

  // ---------------------------------------------------------------------------
  // dostorage and prepare

  /** The compile time a readable state file holds, nil for any other. */
  function CachedCompileTime(file: StateFile): RValue {
    if file.Intact? then file.compileTime else Nil
  }

  /** dostorage: load the state file and set the compile time from it unless
      one is already set (`||=`). An unreadable file is logged, removed and
      loaded again; one that cannot be removed is a Puppet::Error. Returns
      the trace, the compile time, the outcome and the state file afterwards. */
  function DoStorageSpec(compileTime: RValue, file: StateFile, canUnlink: bool): (r: (seq<Action>, RValue, Outcome, StateFile))
    ensures r.2.Fail? <==> file.Corrupt? && !canUnlink
    ensures r.2.Fail? ==> r.2.error == PuppetError && r.1 == compileTime && r.3 == file
    ensures r.2.Pass? ==> !r.3.Corrupt? && (file.Corrupt? || r.3 == file)
    ensures Truthy(compileTime) ==> r.1 == compileTime
    ensures r.2.Pass? && !Truthy(compileTime) ==> r.1 == CachedCompileTime(r.3)
  {
    if !file.Corrupt? then
      ([LoadState], if Truthy(compileTime) then compileTime else CachedCompileTime(file), Pass, file)
    else if !canUnlink then
      ([LoadState, Log(CorruptStateFile), UnlinkState], compileTime, Fail(PuppetError), file)
    else
      ([LoadState, Log(CorruptStateFile), UnlinkState, LoadState], if Truthy(compileTime) then compileTime else Nil, Pass, Absent)
  }

  /** dostorage loads the state file once, and once more after removing an
      unreadable one; it removes the file exactly when it is unreadable. */
  lemma DoStorageLoads(compileTime: RValue, file: StateFile, canUnlink: bool)
    ensures var r := DoStorageSpec(compileTime, file, canUnlink).0;
            multiset(r)[LoadState] == (if file.Corrupt? && canUnlink then 2 else 1) &&
            (UnlinkState in r <==> file.Corrupt?)
  {
  }

  /** The calls prepare makes and the message it logs. */
  predicate IsPrepareAction(a: Action) {
    a == LoadState || a == UnlinkState || a == Log(CorruptStateFile) ||
    a == DownloadPlugins || a == DownloadFactPlugins || a.RunCommand?
  }

  /** prepare: dostorage, download_plugins, download_fact_plugins and the
      prerun command, in that order; the first exception stops it. */
  function PrepareSpec(settings: Settings, w: Collaborators, compileTime: RValue): (r: (seq<Action>, RValue, Outcome, StateFile))
    ensures var s := DoStorageSpec(compileTime, w.stateFile, w.canUnlink);
            r.1 == s.1 && r.3 == s.3 && s.0 <= r.0 &&
            (s.2.Fail? ==> r.0 == s.0 && r.2 == s.2)
    ensures DownloadPlugins in r.0 <==> DoStorageSpec(compileTime, w.stateFile, w.canUnlink).2.Pass?
    ensures DownloadFactPlugins in r.0 <==> DoStorageSpec(compileTime, w.stateFile, w.canUnlink).2.Pass? && w.plugins.Pass?
    ensures var s := DoStorageSpec(compileTime, w.stateFile, w.canUnlink);
            s.2.Pass? ==>
              r.2 == if w.plugins.Fail? then w.plugins
                     else if w.factPlugins.Fail? then w.factPlugins
                     else ExecuteFromSetting(PrerunCommand, settings.prerunCommand, w.prerun).1
    ensures r.2.Pass? <==> DoStorageSpec(compileTime, w.stateFile, w.canUnlink).2.Pass? && w.plugins.Pass? &&
                           w.factPlugins.Pass? && ExecuteFromSetting(PrerunCommand, settings.prerunCommand, w.prerun).1.Pass?
  {
    var (acts, ct, o, file) := DoStorageSpec(compileTime, w.stateFile, w.canUnlink);
    if o.Fail? then (acts, ct, o, file)
    else if w.plugins.Fail? then (acts + [DownloadPlugins], ct, w.plugins, file)
    else if w.factPlugins.Fail? then (acts + [DownloadPlugins, DownloadFactPlugins], ct, w.factPlugins, file)
    else
      var (hookActs, hook) := ExecuteFromSetting(PrerunCommand, settings.prerunCommand, w.prerun);
      (acts + [DownloadPlugins, DownloadFactPlugins] + hookActs, ct, hook, file)
  }

  /** prepare only loads and removes the state file, downloads plugins and
      runs the prerun command, and runs that only after everything else passed. */
  lemma PrepareActions(settings: Settings, w: Collaborators, compileTime: RValue)
    ensures forall a | a in PrepareSpec(settings, w, compileTime).0 :: IsPrepareAction(a)
    ensures (exists c :: RunCommand(PrerunCommand, c) in PrepareSpec(settings, w, compileTime).0) ==>
              DoStorageSpec(compileTime, w.stateFile, w.canUnlink).2.Pass? && w.plugins.Pass? && w.factPlugins.Pass?
  {
    var s := DoStorageSpec(compileTime, w.stateFile, w.canUnlink);
    assert forall a | a in s.0 :: a == LoadState || a == UnlinkState || a == Log(CorruptStateFile);
  }

  // ---------------------------------------------------------------------------
  // retrieve_catalog and convert_catalog

  /** convert_catalog: the RAL catalog, finalized, with the retrieval
      duration, marked as the host's configuration, its class file written. */
  function ConvertCatalog(result: WireCatalog, duration: nat): (c: HostCatalog)
    ensures c.source == result && c.retrievalDuration == duration
    ensures c.finalized && c.hostConfig && c.classFileWritten
  {
    HostCatalog(result, true, duration, true, true)
  }

  /** The catalog the fresh fetch returned, if it returned one. */
  function FreshCatalog(w: Collaborators): Option<WireCatalog> {
    if w.remote.result.Ok? then w.remote.result.value else None
  }

  /** The catalog the cache lookup returned, if it returned one. */
  function CachedCatalog(w: Collaborators): Option<WireCatalog> {
    if w.cached.result.Ok? then w.cached.result.value else None
  }

  /** retrieve_catalog: a fresh fetch, whose failure is logged (only
      SystemExit and NoMemoryError escape); then, only when it gave no catalog
      and usecacheonfailure is set, a cache lookup, whose StandardError is
      logged; nil when neither gave a catalog, else the converted catalog with
      the duration of the attempt that produced it. */
  function RetrieveCatalogSpec(settings: Settings, w: Collaborators): (r: (seq<Action>, Result<Option<HostCatalog>>))
    ensures r.0 != [] && r.0[0] == UploadFacts
  {
    if w.facts.Fail? then ([UploadFacts], Err(w.facts.error))
    else
      var tried := [UploadFacts, Find(settings.certname, IgnoreCache)];
      if w.remote.result.Err? && w.remote.result.error.IsFatal() then (tried, Err(w.remote.result.error))
      else if FreshCatalog(w).Some? then
        var c := ConvertCatalog(FreshCatalog(w).value, w.remote.duration);
        (tried + [Convert(c)], Ok(Some(c)))
      else
        var logged := tried + (if w.remote.result.Err? then [Log(FetchFailed)] else []);
        if !settings.useCacheOnFailure then (logged + [Log(NoCacheOnFailure)], Ok(None))
        else
          var cacheTried := logged + [Find(settings.certname, IgnoreTerminus)];
          match w.cached.result
          case Err(e) =>
            if e.IsStandard() then (cacheTried + [Log(CacheFailed)], Ok(None)) else (cacheTried, Err(e))
          case Ok(None) => (cacheTried + [Log(UsingCachedCatalog)], Ok(None))
          case Ok(Some(wire)) =>
            var c := ConvertCatalog(wire, w.cached.duration);
            (cacheTried + [Log(UsingCachedCatalog), Convert(c)], Ok(Some(c)))
  }

  /** retrieve_catalog looks up the fresh catalog once facts are ready and
      the cached one only after the fresh lookup gave nothing (without a fatal
      error) and usecacheonfailure is set; it returns nil exactly when neither
      gave a catalog and nothing escaped; a catalog it returns is converted,
      from the attempt that produced it and with that attempt's duration. */
  lemma RetrieveCatalogOutcome(settings: Settings, w: Collaborators)
    ensures var r := RetrieveCatalogSpec(settings, w);
            (Find(settings.certname, IgnoreCache) in r.0 <==> w.facts.Pass?) &&
            (Find(settings.certname, IgnoreTerminus) in r.0 <==>
                w.facts.Pass? && FreshCatalog(w).None? && !(w.remote.result.Err? && w.remote.result.error.IsFatal()) &&
                settings.useCacheOnFailure) &&
            (r.1 == Ok(None) <==>
                w.facts.Pass? && FreshCatalog(w).None? && !(w.remote.result.Err? && w.remote.result.error.IsFatal()) &&
                (!settings.useCacheOnFailure ||
                 (CachedCatalog(w).None? && !(w.cached.result.Err? && !w.cached.result.error.IsStandard())))) &&
            (r.1.Ok? && r.1.value.Some? ==>
                var c := r.1.value.value;
                c.finalized && c.hostConfig && c.classFileWritten &&
                if FreshCatalog(w).Some? then c.source == FreshCatalog(w).value && c.retrievalDuration == w.remote.duration
                else CachedCatalog(w).Some? && c.source == CachedCatalog(w).value && c.retrievalDuration == w.cached.duration &&
                     Log(UsingCachedCatalog) in r.0) &&
            (r.1.Err? ==> w.facts.Fail? || r.1.error.IsFatal() || !r.1.error.IsStandard())
    ensures w.facts.Pass? && w.remote.result.Err? && w.remote.result.error.IsFatal() ==>
              RetrieveCatalogSpec(settings, w).1 == Err(w.remote.result.error)
  {
  }

  /** retrieve_catalog logs a failed fresh lookup exactly when it raised
      something other than SystemExit or NoMemoryError, a failed cache lookup
      exactly when it raised a StandardError, and "Using cached catalog"
      exactly when the cache lookup returned, catalog or not. */
  lemma RetrieveCatalogLogs(settings: Settings, w: Collaborators)
    ensures var r := RetrieveCatalogSpec(settings, w).0;
            var cacheTried := w.facts.Pass? && FreshCatalog(w).None? &&
                              !(w.remote.result.Err? && w.remote.result.error.IsFatal()) && settings.useCacheOnFailure;
            (Log(FetchFailed) in r <==> w.facts.Pass? && w.remote.result.Err? && !w.remote.result.error.IsFatal()) &&
            (Log(NoCacheOnFailure) in r <==>
               w.facts.Pass? && FreshCatalog(w).None? && !(w.remote.result.Err? && w.remote.result.error.IsFatal()) &&
               !settings.useCacheOnFailure) &&
            (Log(CacheFailed) in r <==> cacheTried && w.cached.result.Err? && w.cached.result.error.IsStandard()) &&
            (Log(UsingCachedCatalog) in r <==> cacheTried && w.cached.result.Ok?)
  {
  }

  /** retrieve_catalog only uploads facts, looks up, converts and logs. */
  lemma RetrieveActions(settings: Settings, w: Collaborators)
    ensures forall a | a in RetrieveCatalogSpec(settings, w).0 :: a == UploadFacts || a.Find? || a.Convert? || a.Log?
  {
  }

  // ---------------------------------------------------------------------------
  // send_report

  /** send_report: metrics only with a transaction, the summary only when
      summarize is set, the save only when report is set. Its rescue logs
      every StandardError, including the NoMethodError of a nil report, so
      only an exception outside StandardError escapes. */
  function SendReport(settings: Settings, hasReport: bool, hasTransaction: bool, save: Outcome): (r: (seq<Action>, Outcome))
    ensures r.1.Fail? ==> !r.1.error.IsStandard()
    ensures r.1.Fail? <==> settings.report && hasReport && save.Fail? && !save.error.IsStandard()
  {
    var metrics := if hasTransaction then [AddMetrics] else [];
    if settings.summarize && !hasReport then (metrics + [Log(ReportFailed)], Pass)
    else
      var (summary, saved) := SentParts(settings, hasReport, save);
      var escapes := settings.report && hasReport && save.Fail? && !save.error.IsStandard();
      (metrics + summary + saved, if escapes then save else Pass)
  }

  /** The two parts of what send_report records after the metrics: the
      summary and the save, each logged as a failure when there is no report. */
  function SentParts(settings: Settings, hasReport: bool, save: Outcome): (seq<Action>, seq<Action>) {
    var summary := if settings.summarize then [PrintSummary] else [];
    var saved :=
      if !settings.report then []
      else if !hasReport then [Log(ReportFailed)]
      else if save.Fail? && save.error.IsStandard() then [SaveReport, Log(ReportFailed)]
      else [SaveReport];
    (summary, saved)
  }

  /** send_report records only metrics, the summary, the save and its
      failure message. */
  lemma SendReportActions(settings: Settings, hasReport: bool, hasTransaction: bool, save: Outcome)
    ensures forall a | a in SendReport(settings, hasReport, hasTransaction, save).0 ::
              a == AddMetrics || a == PrintSummary || a == SaveReport || a == Log(ReportFailed)
  {
    var metrics: seq<Action> := if hasTransaction then [AddMetrics] else [];
    var r := SendReport(settings, hasReport, hasTransaction, save).0;
    if !(settings.summarize && !hasReport) {
      var (summary, saved) := SentParts(settings, hasReport, save);
      assert r == metrics + summary + saved;
      forall a | a in r
        ensures a == AddMetrics || a == PrintSummary || a == SaveReport || a == Log(ReportFailed)
      {
        assert a in metrics || a in summary || a in saved;
      }
    }
  }

  /** send_report adds metrics only with a transaction, prints the summary
      only when summarize is set and saves only when report is set; without
      a report, either of those is logged as a failure, and so is a save that
      raises a StandardError. */
  lemma SendReportCalls(settings: Settings, hasReport: bool, hasTransaction: bool, save: Outcome)
    ensures var r := SendReport(settings, hasReport, hasTransaction, save).0;
            (AddMetrics in r <==> hasTransaction) &&
            (PrintSummary in r <==> settings.summarize && hasReport) &&
            (SaveReport in r <==> settings.report && hasReport) &&
            (Log(ReportFailed) in r <==>
               (!hasReport && (settings.summarize || settings.report)) ||
               (hasReport && settings.report && save.Fail? && save.error.IsStandard()))
  {
    var metrics: seq<Action> := if hasTransaction then [AddMetrics] else [];
    var r := SendReport(settings, hasReport, hasTransaction, save).0;
    if !(settings.summarize && !hasReport) {
      var (summary, saved) := SentParts(settings, hasReport, save);
      assert r == metrics + (summary + saved);
    }
  }

  // ---------------------------------------------------------------------------
  // run

  /** What `run` returns when it returns: the report, or nil. */
  datatype RunReturn = ReportReturned | NilReturned

  /** Where the body of `run` left off when its `ensure` starts: whether the
      report and a transaction exist, and what the body returned or raised. */
  datatype BodyEnd = BodyEnd(hasReport: bool, hasTransaction: bool, result: Result<RunReturn>)

  /** The apply step of the body, with the catalog (or the truthy non-catalog
      value a caller passed) and the options apply receives. A non-catalog has
      no `apply`: its NoMethodError is rescued like any other StandardError,
      and so is a StandardError of apply; anything else escapes. */
  function ApplySpec(w: Collaborators, catalog: OptionValue, options: map<string, OptionValue>): (r: (seq<Action>, BodyEnd))
    ensures r.0 == [Apply(options)] || r.0 == [Log(ApplyFailed)] || r.0 == [Apply(options), Log(ApplyFailed)]
    ensures Apply(options) in r.0 <==> catalog.CatalogArg?
    ensures r.1.hasReport && (r.1.hasTransaction <==> catalog.CatalogArg? && w.apply.Pass?)
    ensures r.1.result == Ok(ReportReturned) <==> r.1.hasTransaction
    ensures r.1.result.Err? <==> catalog.CatalogArg? && w.apply.Fail? && !w.apply.error.IsStandard()
  {
    if catalog.Plain? then ([Log(ApplyFailed)], BodyEnd(true, false, Ok(NilReturned)))
    else
      match w.apply
      case Pass => ([Apply(options)], BodyEnd(true, true, Ok(ReportReturned)))
      case Fail(e) =>
        if e.IsStandard() then ([Apply(options), Log(ApplyFailed)], BodyEnd(true, false, Ok(NilReturned)))
        else ([Apply(options)], BodyEnd(true, false, Err(e)))
  }

  /** The calls and messages of the body of `run`. */
  predicate IsBodyAction(a: Action) {
    IsPrepareAction(a) || a == NewLogDestination || IsStageAction(a)
  }

  /** The calls and messages of the catalog stage. */
  predicate IsStageAction(a: Action) {
    a == UploadFacts || a.Find? || a.Convert? || a.Log? || a.Apply?
  }

  /** The catalog `options[:catalog]` supplies, when it is truthy. */
  predicate CatalogGiven(options: map<string, OptionValue>) {
    "catalog" in options && OptionTruthy(options["catalog"])
  }

  /** The catalog part of the body of `run`: the catalog from
      `options[:catalog]` (the key then removed) or from retrieve_catalog
      (nil skips the run), and the apply. */
  function CatalogStage(settings: Settings, options: map<string, OptionValue>, w: Collaborators): (r: (seq<Action>, BodyEnd))
    ensures r.1.hasReport
    ensures r.1.hasTransaction <==>
              w.apply.Pass? &&
              if CatalogGiven(options) then options["catalog"].CatalogArg?
              else RetrieveCatalogSpec(settings, w).1.Ok? && RetrieveCatalogSpec(settings, w).1.value.Some?
    ensures r.1.result == Ok(ReportReturned) <==> r.1.hasTransaction
  {
    if CatalogGiven(options) then
      ApplySpec(w, options["catalog"], options - {"catalog"})
    else
      var retrieved := RetrieveCatalogSpec(settings, w);
      match retrieved.1
      case Err(e) => (retrieved.0, BodyEnd(true, false, Err(e)))
      case Ok(None) => (retrieved.0 + [Log(SkippingRun)], BodyEnd(true, false, Ok(NilReturned)))
      case Ok(Some(c)) =>
        var applied := ApplySpec(w, CatalogArg(c), options);
        (retrieved.0 + applied.0, applied.1)
  }

  /** The catalog stage calls and logs only what retrieve_catalog and apply do. */
  lemma CatalogStageActions(settings: Settings, options: map<string, OptionValue>, w: Collaborators)
    ensures forall a | a in CatalogStage(settings, options, w).0 :: IsStageAction(a)
  {
    var r := CatalogStage(settings, options, w).0;
    if !CatalogGiven(options) {
      var retrieved := RetrieveCatalogSpec(settings, w);
      RetrieveActions(settings, w);
      var tail := r[|retrieved.0|..];
      assert r == retrieved.0 + tail;
      assert forall a | a in tail :: a == Log(SkippingRun) || a.Apply? || a == Log(ApplyFailed);
    }
  }

  /** With a catalog given, nothing is fetched and apply never sees the
      :catalog key. */
  lemma CatalogStageGiven(settings: Settings, options: map<string, OptionValue>, w: Collaborators)
    requires CatalogGiven(options)
    ensures forall a | a in CatalogStage(settings, options, w).0 :: !a.Find? && (a.Apply? ==> "catalog" !in a.options)
  {
  }

  /** A transaction exists only after the catalog stage called apply. */
  lemma CatalogStageApplies(settings: Settings, options: map<string, OptionValue>, w: Collaborators)
    ensures var r := CatalogStage(settings, options, w);
            r.1.hasTransaction ==> exists a | a in r.0 :: a.Apply?
  {
    var r := CatalogStage(settings, options, w);
    if r.1.hasTransaction && !CatalogGiven(options) {
      var retrieved := RetrieveCatalogSpec(settings, w);
      var c := retrieved.1.value.value;
      var applied := ApplySpec(w, CatalogArg(c), options);
      assert r.0[|retrieved.0|] == applied.0[0] == Apply(options);
    }
  }

  /** The body of `run`, up to its `ensure`: prepare (whose failures are
      logged, SystemExit and NoMemoryError excepted), a new report as a log
      destination, then the catalog stage. Returns the trace, the compile
      time, the state file and where it ended. */
  function BodySpec(settings: Settings, options: map<string, OptionValue>, w: Collaborators, compileTime: RValue): (r: (seq<Action>, RValue, StateFile, BodyEnd))
    ensures var prep := PrepareSpec(settings, w, compileTime);
            prep.0 <= r.0 && r.1 == prep.1 && r.2 == prep.3 &&
            (r.3.hasReport <==> !(prep.2.Fail? && prep.2.error.IsFatal())) &&
            (!r.3.hasReport ==> r.3 == BodyEnd(false, false, Err(prep.2.error)))
    ensures r.3.hasReport ==> r.3 == CatalogStage(settings, options, w).1
  {
    var prep := PrepareSpec(settings, w, compileTime);
    if prep.2.Fail? && prep.2.error.IsFatal() then (prep.0, prep.1, prep.3, BodyEnd(false, false, Err(prep.2.error)))
    else
      var stage := CatalogStage(settings, options, w);
      (prep.0 + Opened(prep.2) + stage.0, prep.1, prep.3, stage.1)
  }

  /** What the body records between prepare and the catalog stage: the
      logged prepare failure, if any, and the new log destination. */
  function Opened(prepared: Outcome): seq<Action> {
    (if prepared.Fail? then [Log(PrepareFailed)] else []) + [NewLogDestination]
  }

  /** Appending three traces one after the other. */
  lemma AppendThree(t: seq<Action>, c: seq<Action>, r: seq<Action>)
    ensures t + c + r == t + (c + r)
  {
  }

  /** Appending four traces one after the other. */
  lemma AppendFour(t: seq<Action>, p: seq<Action>, o: seq<Action>, s: seq<Action>)
    ensures t + p + o + s == t + (p + o + s)
  {
  }

  /** The body of `run` calls and logs only what prepare and the catalog
      stage do. */
  lemma BodyActions(settings: Settings, options: map<string, OptionValue>, w: Collaborators, compileTime: RValue)
    ensures forall a | a in BodySpec(settings, options, w, compileTime).0 :: IsBodyAction(a)
  {
    PrepareActions(settings, w, compileTime);
    CatalogStageActions(settings, options, w);
    var r := BodySpec(settings, options, w, compileTime);
    var prep := PrepareSpec(settings, w, compileTime);
    if r.3.hasReport {
      var stage := CatalogStage(settings, options, w);
      var logged := if prep.2.Fail? then [Log(PrepareFailed)] else [];
      forall a | a in r.0
        ensures IsBodyAction(a)
      {
        assert a in prep.0 || a in logged || a == NewLogDestination || a in stage.0;
      }
    }
  }

  /** The body never clears the HTTP connections. */
  lemma BodyNeverClears(settings: Settings, options: map<string, OptionValue>, w: Collaborators, compileTime: RValue)
    ensures ClearHttp !in BodySpec(settings, options, w, compileTime).0
  {
    BodyActions(settings, options, w, compileTime);
    assert !IsBodyAction(ClearHttp);
  }

  /** The body adds a log destination exactly when prepare did not end the run. */
  lemma BodyLogDestination(settings: Settings, options: map<string, OptionValue>, w: Collaborators, compileTime: RValue)
    ensures var r := BodySpec(settings, options, w, compileTime);
            NewLogDestination in r.0 <==> r.3.hasReport
  {
    PrepareActions(settings, w, compileTime);
    CatalogStageActions(settings, options, w);
    var r := BodySpec(settings, options, w, compileTime);
    var prep := PrepareSpec(settings, w, compileTime);
    assert !IsPrepareAction(NewLogDestination) && !IsStageAction(NewLogDestination);
    if r.3.hasReport {
      var stage := CatalogStage(settings, options, w);
      var logged := if prep.2.Fail? then [Log(PrepareFailed)] else [];
      assert r.0[|prep.0 + logged|] == NewLogDestination;
    }
  }

  /** With a catalog given, the body fetches nothing and apply never sees
      the :catalog key. */
  lemma BodyGivenCatalog(settings: Settings, options: map<string, OptionValue>, w: Collaborators, compileTime: RValue)
    requires CatalogGiven(options)
    ensures forall a | a in BodySpec(settings, options, w, compileTime).0 :: !a.Find? && (a.Apply? ==> "catalog" !in a.options)
  {
    PrepareActions(settings, w, compileTime);
    CatalogStageGiven(settings, options, w);
    var r := BodySpec(settings, options, w, compileTime);
    var prep := PrepareSpec(settings, w, compileTime);
    if r.3.hasReport {
      var stage := CatalogStage(settings, options, w);
      var logged := if prep.2.Fail? then [Log(PrepareFailed)] else [];
      assert forall a | a in r.0 :: a in prep.0 || a in logged || a == NewLogDestination || a in stage.0;
    }
  }

  /** The body ends returning the report only after an apply that passed. */
  lemma BodyReport(settings: Settings, options: map<string, OptionValue>, w: Collaborators, compileTime: RValue)
    ensures var r := BodySpec(settings, options, w, compileTime);
            r.3.result == Ok(ReportReturned) ==> w.apply.Pass? && exists a | a in r.0 :: a.Apply?
  {
    var r := BodySpec(settings, options, w, compileTime);
    if r.3.result == Ok(ReportReturned) {
      CatalogStageApplies(settings, options, w);
      var stage := CatalogStage(settings, options, w);
      var a :| a in stage.0 && a.Apply?;
      assert r.0[|r.0| - |stage.0|..] == stage.0;
      assert a in r.0;
    }
  }

  /** The `ensure` of `run` after the HTTP connections are cleared: run the
      postrun command, close the report's log destination and send the
      report. An exception raised here replaces whatever the body returned
      or raised, and a failing postrun command skips the rest. */
  function AfterClear(settings: Settings, w: Collaborators, end: BodyEnd): (r: (seq<Action>, Result<RunReturn>))
    ensures ExecuteFromSetting(PostrunCommand, settings.postrunCommand, w.postrun).1.Fail? ==>
              r.1 == Err(ExecuteFromSetting(PostrunCommand, settings.postrunCommand, w.postrun).1.error)
    ensures r.1 == Ok(ReportReturned) ==> end.result == Ok(ReportReturned)
    ensures r.1 != end.result ==> r.1.Err? && (r.1.error == CommandHookError || !r.1.error.IsStandard())
    ensures var hook := ExecuteFromSetting(PostrunCommand, settings.postrunCommand, w.postrun);
            var sent := SendReport(settings, end.hasReport, end.hasTransaction, w.save);
            hook.1.Pass? ==>
              r.0 == hook.0 + [CloseLog(end.hasReport)] + sent.0 &&
              r.1 == (if sent.1.Fail? then Err(sent.1.error) else end.result)
    ensures ExecuteFromSetting(PostrunCommand, settings.postrunCommand, w.postrun).1.Fail? ==>
              r.0 == ExecuteFromSetting(PostrunCommand, settings.postrunCommand, w.postrun).0
  {
    var (hookActs, hook) := ExecuteFromSetting(PostrunCommand, settings.postrunCommand, w.postrun);
    if hook.Fail? then (hookActs, Err(hook.error))
    else
      var (sent, o) := SendReport(settings, end.hasReport, end.hasTransaction, w.save);
      (hookActs + [CloseLog(end.hasReport)] + sent, if o.Fail? then Err(o.error) else end.result)
  }

  /** The `ensure` of `run`: clear the HTTP connections, then the rest. */
  function CleanupSpec(settings: Settings, w: Collaborators, end: BodyEnd): (r: (seq<Action>, Result<RunReturn>))
    ensures r.0 != [] && r.0[0] == ClearHttp
    ensures r.1 == AfterClear(settings, w, end).1
  {
    var rest := AfterClear(settings, w, end);
    ([ClearHttp] + rest.0, rest.1)
  }

  /** What send_report records is neither a cleanup call nor a log close. */
  lemma SendReportQuiet(settings: Settings, hasReport: bool, hasTransaction: bool, save: Outcome)
    ensures var sent := SendReport(settings, hasReport, hasTransaction, save).0;
            ClearHttp !in sent && CloseLog(true) !in sent && CloseLog(false) !in sent
  {
    SendReportActions(settings, hasReport, hasTransaction, save);
  }

  /** The cleanup clears the HTTP connections first and only then. */
  lemma CleanupClearsFirst(settings: Settings, w: Collaborators, end: BodyEnd)
    ensures var r := CleanupSpec(settings, w, end).0;
            |r| >= 1 && r[0] == ClearHttp && ClearHttp !in r[1..]
  {
    var rest := AfterClear(settings, w, end).0;
    assert CleanupSpec(settings, w, end).0[1..] == rest;
    if ExecuteFromSetting(PostrunCommand, settings.postrunCommand, w.postrun).1.Pass? {
      SendReportQuiet(settings, end.hasReport, end.hasTransaction, w.save);
    }
  }

  /** The cleanup closes the log destination, for the report when there is
      one, exactly when the postrun command does not fail. */
  lemma CleanupClosesLog(settings: Settings, w: Collaborators, end: BodyEnd)
    ensures var r := CleanupSpec(settings, w, end).0;
            (CloseLog(end.hasReport) in r <==> ExecuteFromSetting(PostrunCommand, settings.postrunCommand, w.postrun).1.Pass?) &&
            CloseLog(!end.hasReport) !in r
  {
    if ExecuteFromSetting(PostrunCommand, settings.postrunCommand, w.postrun).1.Pass? {
      SendReportQuiet(settings, end.hasReport, end.hasTransaction, w.save);
    }
  }

  /** Everything one run produces. */
  datatype RunRecord = RunRecord(body: seq<Action>, cleanup: seq<Action>, compileTime: RValue,
                                 stateFile: StateFile, result: Result<RunReturn>)

  /** `run`: the body, then its `ensure`. */
  function RunSpec(settings: Settings, options: map<string, OptionValue>, w: Collaborators, compileTime: RValue): (r: RunRecord)
    ensures r.compileTime == PrepareSpec(settings, w, compileTime).1
    ensures r.stateFile == PrepareSpec(settings, w, compileTime).3
    ensures r.cleanup != [] && r.cleanup[0] == ClearHttp
  {
    var (body, ct, file, end) := BodySpec(settings, options, w, compileTime);
    var (cleanup, result) := CleanupSpec(settings, w, end);
    RunRecord(body, cleanup, ct, file, result)
  }

  /** A trace whose tail starts with the only ClearHttp holds it once, with
      everything else before or after it. */
  lemma ClearedOnce(body: seq<Action>, cleanup: seq<Action>)
    requires ClearHttp !in body && cleanup != [] && cleanup[0] == ClearHttp && ClearHttp !in cleanup[1..]
    ensures multiset(body + cleanup)[ClearHttp] == 1
    ensures forall a | a in body + cleanup && a != ClearHttp :: a in body || a in cleanup[1..]
  {
    var rest := cleanup[1..];
    assert cleanup == [ClearHttp] + rest;
    assert multiset(body + cleanup) == multiset(body) + multiset([ClearHttp]) + multiset(rest);
  }

  /** On every way out of `run`, the cleanup runs exactly once, first of its
      own calls and after every call of the body. */
  lemma CleanupOnce(settings: Settings, options: map<string, OptionValue>, w: Collaborators, compileTime: RValue)
    ensures var r := RunSpec(settings, options, w, compileTime);
            multiset(r.body + r.cleanup)[ClearHttp] == 1 &&
            (forall a | a in r.body + r.cleanup && a != ClearHttp ::
               a in r.body || a in r.cleanup[1..]) &&
            r.cleanup[0] == ClearHttp
  {
    var r := RunSpec(settings, options, w, compileTime);
    var end := BodySpec(settings, options, w, compileTime).3;
    assert r.cleanup == CleanupSpec(settings, w, end).0;
    BodyNeverClears(settings, options, w, compileTime);
    CleanupClearsFirst(settings, w, end);
    ClearedOnce(r.body, r.cleanup);
  }

  /** A run closes a log destination, and then sends the report, exactly
      when its postrun command does not fail. */
  lemma PostrunGatesReport(settings: Settings, options: map<string, OptionValue>, w: Collaborators, compileTime: RValue)
    ensures var r := RunSpec(settings, options, w, compileTime);
            (exists b :: CloseLog(b) in r.cleanup) <==>
              ExecuteFromSetting(PostrunCommand, settings.postrunCommand, w.postrun).1.Pass?
  {
    var end := BodySpec(settings, options, w, compileTime).3;
    var cleanup := CleanupSpec(settings, w, end).0;
    CleanupClosesLog(settings, w, end);
    if exists b :: CloseLog(b) in cleanup {
      var b :| CloseLog(b) in cleanup;
      assert b == end.hasReport;
    }
  }

  /** A passing postrun hook is followed by everything send_report does, which
      ends the run's trace; a failing one leaves out every send_report action. */
  lemma PostrunThenReport(settings: Settings, w: Collaborators, end: BodyEnd)
    ensures var cleanup := CleanupSpec(settings, w, end).0;
            var sent := SendReport(settings, end.hasReport, end.hasTransaction, w.save).0;
            ExecuteFromSetting(PostrunCommand, settings.postrunCommand, w.postrun).1.Pass? ==>
              |sent| <= |cleanup| && cleanup[|cleanup| - |sent|..] == sent
    ensures ExecuteFromSetting(PostrunCommand, settings.postrunCommand, w.postrun).1.Fail? ==>
              forall a | a in CleanupSpec(settings, w, end).0 ::
                !(a == AddMetrics || a == PrintSummary || a == SaveReport || a == Log(ReportFailed))
  {
    var (hookActs, hook) := ExecuteFromSetting(PostrunCommand, settings.postrunCommand, w.postrun);
    var cleanup := CleanupSpec(settings, w, end).0;
    if hook.Pass? {
      var sent := SendReport(settings, end.hasReport, end.hasTransaction, w.save).0;
      assert cleanup == [ClearHttp] + hookActs + [CloseLog(end.hasReport)] + sent;
    } else {
      assert cleanup == [ClearHttp] + hookActs;
    }
  }

  /** The cleanup neither looks up nor applies a catalog. */
  lemma CleanupActions(settings: Settings, w: Collaborators, end: BodyEnd)
    ensures forall a | a in CleanupSpec(settings, w, end).0 :: !a.Find? && !a.Apply?
  {
    var hook := ExecuteFromSetting(PostrunCommand, settings.postrunCommand, w.postrun);
    var rest := AfterClear(settings, w, end).0;
    if hook.1.Pass? {
      var sent := SendReport(settings, end.hasReport, end.hasTransaction, w.save).0;
      SendReportActions(settings, end.hasReport, end.hasTransaction, w.save);
      var head := hook.0 + [CloseLog(end.hasReport)];
      assert rest == head + sent;
      forall a | a in rest
        ensures !a.Find? && !a.Apply?
      {
        assert a in head || a in sent;
      }
    }
    forall a | a in CleanupSpec(settings, w, end).0
      ensures !a.Find? && !a.Apply?
    {
      assert a == ClearHttp || a in rest;
    }
  }

  /** A catalog passed to `run` is applied without any fetch, and apply never
      sees the :catalog key. */
  lemma GivenCatalogSkipsRetrieval(settings: Settings, options: map<string, OptionValue>, w: Collaborators, compileTime: RValue)
    requires CatalogGiven(options)
    ensures var r := RunSpec(settings, options, w, compileTime);
            forall a | a in r.body + r.cleanup :: !a.Find? && (a.Apply? ==> "catalog" !in a.options)
  {
    var r := RunSpec(settings, options, w, compileTime);
    BodyGivenCatalog(settings, options, w, compileTime);
    CleanupActions(settings, w, BodySpec(settings, options, w, compileTime).3);
    forall a | a in r.body + r.cleanup
      ensures !a.Find? && (a.Apply? ==> "catalog" !in a.options)
    {
      if a !in r.body {
        assert a in r.cleanup;
      }
    }
  }

  /** `run` returns the report only when the catalog was applied and its
      transaction exists; a prepare failure other than SystemExit and
      NoMemoryError does not stop the run. */
  lemma ReportOnlyAfterApply(settings: Settings, options: map<string, OptionValue>, w: Collaborators, compileTime: RValue)
    ensures var r := RunSpec(settings, options, w, compileTime);
            (r.result == Ok(ReportReturned) ==> w.apply.Pass? && exists a | a in r.body :: a.Apply?) &&
            var prep := PrepareSpec(settings, w, compileTime);
            (NewLogDestination in r.body <==> !(prep.2.Fail? && prep.2.error.IsFatal()))
  {
    BodyReport(settings, options, w, compileTime);
    BodyLogDestination(settings, options, w, compileTime);
  }

  /** Conversely, `run` returns the report when preparing raised nothing
      fatal, a catalog was given or retrieved, applying it passed, the postrun
      hook passed and saving the report raised nothing that escapes. */
  lemma ReportAfterApply(settings: Settings, options: map<string, OptionValue>, w: Collaborators, compileTime: RValue)
    ensures var prep := PrepareSpec(settings, w, compileTime);
            var obtained :=
              if CatalogGiven(options) then options["catalog"].CatalogArg?
              else RetrieveCatalogSpec(settings, w).1.Ok? && RetrieveCatalogSpec(settings, w).1.value.Some?;
            !(prep.2.Fail? && prep.2.error.IsFatal()) && obtained && w.apply.Pass? &&
            ExecuteFromSetting(PostrunCommand, settings.postrunCommand, w.postrun).1.Pass? &&
            !(settings.report && w.save.Fail? && !w.save.error.IsStandard()) ==>
              RunSpec(settings, options, w, compileTime).result == Ok(ReportReturned)
  {
  }

  // ---------------------------------------------------------------------------
  // The client object

  class Client {
    /** `@catalog`, which `clear` drops. */
    var catalog: Option<HostCatalog>
    /** `@compile_time`. */
    var compileTime: RValue
    /** Every collaborator call and message so far. */
    var trace: seq<Action>

    constructor ()
      ensures catalog == None && compileTime == Nil && trace == []
    {
      catalog := None;
      compileTime := Nil;
      trace := [];
    }

    /** clear: the catalog, if any, clears itself, and is dropped. */
    method Clear()
      modifies this
      ensures catalog == None && compileTime == old(compileTime)
      ensures trace == old(trace) + if old(catalog).Some? then [ClearCatalog] else []
    {
      if catalog.Some? {
        trace := trace + [ClearCatalog];
      }
      catalog := None;
    }

    /** dostorage, with the state file and whether it can be removed as
        inputs: the load is retried after removing an unreadable file. */
    method DoStorage(file: StateFile, canUnlink: bool) returns (o: Outcome, fileAfter: StateFile)
      modifies this
      ensures var s := DoStorageSpec(old(compileTime), file, canUnlink);
              trace == old(trace) + s.0 && compileTime == s.1 && o == s.2 && fileAfter == s.3
      ensures catalog == old(catalog)
    {
      fileAfter := file;
      var calls: seq<Action> := [];
      while true
        invariant calls == if fileAfter == file then [] else [LoadState, Log(CorruptStateFile), UnlinkState]
        invariant trace == old(trace) && compileTime == old(compileTime) && catalog == old(catalog)
        invariant fileAfter == file || (file.Corrupt? && canUnlink && fileAfter == Absent)
        decreases if fileAfter.Corrupt? then 1 else 0
      {
        calls := calls + [LoadState];
        if !fileAfter.Corrupt? {
          if !Truthy(compileTime) {
            compileTime := CachedCompileTime(fileAfter);
          }
          trace := trace + calls;
          return Pass, fileAfter;
        }
        calls := calls + [Log(CorruptStateFile), UnlinkState];
        if !canUnlink {
          trace := trace + calls;
          return Fail(PuppetError), fileAfter;
        }
        fileAfter := Absent;
      }
    }

    /** prepare: each step runs only when the one before it did not raise. */
    method Prepare(settings: Settings, w: Collaborators) returns (o: Outcome, fileAfter: StateFile)
      modifies this
      ensures var s := PrepareSpec(settings, w, old(compileTime));
              trace == old(trace) + s.0 && compileTime == s.1 && o == s.2 && fileAfter == s.3
      ensures catalog == old(catalog)
    {
      o, fileAfter := DoStorage(w.stateFile, w.canUnlink);
      if o.Fail? {
        return;
      }
      trace := trace + [DownloadPlugins];
      if w.plugins.Fail? {
        return w.plugins, fileAfter;
      }
      trace := trace + [DownloadFactPlugins];
      if w.factPlugins.Fail? {
        return w.factPlugins, fileAfter;
      }
      var hook := ExecuteFromSetting(PrerunCommand, settings.prerunCommand, w.prerun);
      trace := trace + hook.0;
      o := hook.1;
    }

    /** retrieve_catalog: the fresh attempt, then, when that gave nothing,
        the cached one. */
    method RetrieveCatalog(settings: Settings, w: Collaborators) returns (r: Result<Option<HostCatalog>>)
      modifies this
      ensures var s := RetrieveCatalogSpec(settings, w);
              trace == old(trace) + s.0 && r == s.1
      ensures catalog == old(catalog) && compileTime == old(compileTime)
    {
      var calls := [UploadFacts];
      if w.facts.Fail? {
        trace := trace + calls;
        return Err(w.facts.error);
      }
      var result: Option<WireCatalog> := None;
      var duration: nat := 0;
      calls := calls + [Find(settings.certname, IgnoreCache)];
      match w.remote.result {
        case Err(e) =>
          if e.IsFatal() {
            trace := trace + calls;
            return Err(e);
          }
          calls := calls + [Log(FetchFailed)];
        case Ok(c) =>
          result, duration := c, w.remote.duration;
      }
      if result.None? {
        if !settings.useCacheOnFailure {
          trace := trace + (calls + [Log(NoCacheOnFailure)]);
          return Ok(None);
        }
        calls := calls + [Find(settings.certname, IgnoreTerminus)];
        match w.cached.result {
          case Err(e) =>
            if !e.IsStandard() {
              trace := trace + calls;
              return Err(e);
            }
            calls := calls + [Log(CacheFailed)];
          case Ok(c) =>
            result, duration := c, w.cached.duration;
            calls := calls + [Log(UsingCachedCatalog)];
        }
      }
      if result.None? {
        trace := trace + calls;
        return Ok(None);
      }
      var converted := ConvertCatalog(result.value, duration);
      trace := trace + (calls + [Convert(converted)]);
      return Ok(Some(converted));
    }

    /** `catalog.apply(options)` and its rescue. */
    method ApplyCatalog(w: Collaborators, chosen: OptionValue, options: map<string, OptionValue>) returns (end: BodyEnd)
      modifies this
      ensures trace == old(trace) + ApplySpec(w, chosen, options).0 && end == ApplySpec(w, chosen, options).1
      ensures catalog == old(catalog) && compileTime == old(compileTime)
    {
      if chosen.Plain? {
        trace := trace + [Log(ApplyFailed)];
        return BodyEnd(true, false, Ok(NilReturned));
      }
      trace := trace + [Apply(options)];
      if w.apply.Pass? {
        return BodyEnd(true, true, Ok(ReportReturned));
      }
      if w.apply.error.IsStandard() {
        trace := trace + [Log(ApplyFailed)];
        return BodyEnd(true, false, Ok(NilReturned));
      }
      return BodyEnd(true, false, Err(w.apply.error));
    }

    /** The catalog part of the body of run: take the catalog from the
        options, deleting the key from the caller's hash, or retrieve one;
        then apply it. `optionsAfter` is the caller's hash afterwards. */
    method CatalogStep(settings: Settings, options: map<string, OptionValue>, w: Collaborators)
        returns (end: BodyEnd, optionsAfter: map<string, OptionValue>)
      modifies this
      ensures trace == old(trace) + CatalogStage(settings, options, w).0 && end == CatalogStage(settings, options, w).1
      ensures optionsAfter == if CatalogGiven(options) then options - {"catalog"} else options
      ensures catalog == old(catalog) && compileTime == old(compileTime)
    {
      optionsAfter := options;
      var chosen;
      if CatalogGiven(optionsAfter) {
        chosen := optionsAfter["catalog"];
        optionsAfter := optionsAfter - {"catalog"};
      } else {
        var got := RetrieveCatalog(settings, w);
        if got.Err? {
          return BodyEnd(true, false, Err(got.error)), optionsAfter;
        }
        if got.value.None? {
          trace := trace + [Log(SkippingRun)];
          return BodyEnd(true, false, Ok(NilReturned)), optionsAfter;
        }
        chosen := CatalogArg(got.value.value);
      }
      end := ApplyCatalog(w, chosen, optionsAfter);
    }

    /** The body of run, up to its `ensure`. */
    method RunBody(settings: Settings, options: map<string, OptionValue>, w: Collaborators)
        returns (fileAfter: StateFile, end: BodyEnd, optionsAfter: map<string, OptionValue>)
      modifies this
      ensures var s := BodySpec(settings, options, w, old(compileTime));
              trace == old(trace) + s.0 && compileTime == s.1 && fileAfter == s.2 && end == s.3
      ensures optionsAfter == if end.hasReport && CatalogGiven(options) then options - {"catalog"} else options
      ensures catalog == old(catalog)
    {
      ghost var t0 := trace;
      var prepared;
      prepared, fileAfter := Prepare(settings, w);
      if prepared.Fail? && prepared.error.IsFatal() {
        return fileAfter, BodyEnd(false, false, Err(prepared.error)), options;
      }
      trace := trace + Opened(prepared);
      end, optionsAfter := CatalogStep(settings, options, w);
      AppendFour(t0, PrepareSpec(settings, w, old(compileTime)).0, Opened(prepared), CatalogStage(settings, options, w).0);
    }

    /** run: the body, then its `ensure`. `optionsAfter` is the caller's
        options hash after the run: a truthy :catalog is deleted from it
        once preparing has not raised SystemExit or NoMemoryError. */
    method Run(settings: Settings, options: map<string, OptionValue>, w: Collaborators)
        returns (r: Result<RunReturn>, fileAfter: StateFile, optionsAfter: map<string, OptionValue>)
      modifies this
      ensures var s := RunSpec(settings, options, w, old(compileTime));
              trace == old(trace) + s.body + s.cleanup && compileTime == s.compileTime &&
              fileAfter == s.stateFile && r == s.result
      ensures var prep := PrepareSpec(settings, w, old(compileTime));
              optionsAfter ==
                if !(prep.2.Fail? && prep.2.error.IsFatal()) && CatalogGiven(options) then options - {"catalog"}
                else options
      ensures catalog == old(catalog)
    {
      var end;
      fileAfter, end, optionsAfter := RunBody(settings, options, w);
      ghost var t1 := trace;
      trace := trace + [ClearHttp];
      var hook := ExecuteFromSetting(PostrunCommand, settings.postrunCommand, w.postrun);
      if hook.1.Fail? {
        trace := trace + hook.0;
        AppendThree(t1, [ClearHttp], hook.0);
        return Err(hook.1.error), fileAfter, optionsAfter;
      }
      var sent := SendReport(settings, end.hasReport, end.hasTransaction, w.save);
      trace := trace + (hook.0 + [CloseLog(end.hasReport)] + sent.0);
      AppendThree(t1, [ClearHttp], hook.0 + [CloseLog(end.hasReport)] + sent.0);
      r := if sent.1.Fail? then Err(sent.1.error) else end.result;
    }
  }
}
