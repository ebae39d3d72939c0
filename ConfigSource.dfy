/** Where the registry configuration comes from: an inline mapping, a
    configuration file, or the packaged default file, with absent top-level
    keys filled from the document that was read. Reading and parsing a file
    is abstracted as a loader function from path to `LoadResult`. */
module ConfigSource {
  import opened Values

  /** The name of the packaged default configuration file. */
  const DefaultConfFile := "default_recognizers.yaml"

  /** What `yaml.safe_load(open(path))` gives for one path. */
  datatype LoadResult = Loaded(document: Value) | NotFound | ParseError

  /** The two kinds of exception `_add_missing_keys` can raise: an IOError
      from `open`, and any other one (a YAML error, or a document without
      `.items()` such as an empty file or a top-level list). */
  datatype LoadFailure = IOFailure | OtherFailure

  datatype ConfigError =
    | BothSourcesGiven                         // the ValueError for a file and an inline mapping together
    | DefaultUnavailable(failure: LoadFailure) // the packaged default itself could not be read

  /** The shallow, caller-first merge of `defaults` into `configuration`. */
  ghost predicate CallerFirstMerge(configuration: Configuration, defaults: Configuration, merged: Configuration) {
    && merged.Keys == configuration.Keys + defaults.Keys
    && (forall k :: k in configuration ==> merged[k] == configuration[k])
    && (forall k :: k in defaults && k !in configuration ==> merged[k] == defaults[k])
  }

  /** `configuration.update({k: v for k, v in defaults.items() if k not in configuration})`. */
  function MergeMissing(configuration: Configuration, defaults: Configuration): (r: Configuration)
    ensures CallerFirstMerge(configuration, defaults, r)
  {
    configuration + map k | k in defaults && k !in configuration :: defaults[k]
  }

  /** `_add_missing_keys`: merge the loaded document into `configuration`,
      or report the exception its loading raised. */
  function AddMissingKeys(configuration: Configuration, loaded: LoadResult): (r: Result<Configuration, LoadFailure>)
    ensures r.Ok? <==> loaded.Loaded? && loaded.document.Dict?
    ensures r.Ok? ==> CallerFirstMerge(configuration, loaded.document.fields, r.value)
    ensures r == Err(IOFailure) <==> loaded.NotFound?
  {
    match loaded
    case NotFound => Err(IOFailure)
    case ParseError => Err(OtherFailure)
    case Loaded(document) =>
      if document.Dict? then Ok(MergeMissing(configuration, document.fields)) else Err(OtherFailure)
  }

  /** A file argument counts when it is truthy; a path is modelled by its text. */
  predicate FileGiven(confFile: Option<string>) {
    confFile.Some? && confFile.value != ""
  }

  /** An inline mapping counts when it is truthy, that is, non-empty. */
  predicate InlineGiven(registryConfiguration: Option<Configuration>) {
    registryConfiguration.Some? && registryConfiguration.value != map[]
  }

  /** The mapping the merge starts from: a copy of the inline one, or `{}`. */
  function Initial(registryConfiguration: Option<Configuration>): Configuration {
    if InlineGiven(registryConfiguration) then registryConfiguration.value else map[]
  }

  /** The default branch of `_get_configuration`: its exceptions escape. */
  function FromDefault(configuration: Configuration, load: string -> LoadResult): Result<Configuration, ConfigError> {
    match AddMissingKeys(configuration, load(DefaultConfFile))
    case Ok(merged) => Ok(merged)
    case Err(failure) => Err(DefaultUnavailable(failure))
  }

  /** `_get_configuration`, as a value: the configuration the provider ends
      up holding. */
  function ResolvedConfiguration(confFile: Option<string>, registryConfiguration: Option<Configuration>,
                                 load: string -> LoadResult): Result<Configuration, ConfigError>
  {
    if FileGiven(confFile) && InlineGiven(registryConfiguration) then Err(BothSourcesGiven)
    else
      var configuration := Initial(registryConfiguration);
      if !FileGiven(confFile) then FromDefault(configuration, load)
      else
        match AddMissingKeys(configuration, load(confFile.value))
        case Ok(merged) => Ok(merged)
        case Err(_) => FromDefault(configuration, load)
  }

  /** Supplying a file together with a non-empty inline mapping is refused. */
  lemma BothSourcesAreRefused(confFile: Option<string>, registryConfiguration: Option<Configuration>,
                              load: string -> LoadResult)
    ensures ResolvedConfiguration(confFile, registryConfiguration, load) == Err(BothSourcesGiven)
        <==> FileGiven(confFile) && InlineGiven(registryConfiguration)
  {
  }

  /** A file given on its own that loads as a mapping is the configuration,
      exactly: nothing is added from the packaged default. */
  lemma GivenFileIsTakenAsIs(file: string, registryConfiguration: Option<Configuration>,
                             load: string -> LoadResult, document: Configuration)
    requires file != "" && !InlineGiven(registryConfiguration)
    requires load(file) == Loaded(Dict(document))
    ensures ResolvedConfiguration(Some(file), registryConfiguration, load) == Ok(document)
  {
    var merged := MergeMissing(map[], document);
    assert merged == document;
  }

  /** A file that is missing, fails to parse or is not a mapping gives the
      same outcome as giving no file at all: the packaged default is merged
      instead, and the file's failure never escapes. */
  lemma FailedFileFallsBackToDefault(file: string, registryConfiguration: Option<Configuration>,
                                     load: string -> LoadResult)
    requires file != "" && !InlineGiven(registryConfiguration)
    requires !(load(file).Loaded? && load(file).document.Dict?)
    ensures ResolvedConfiguration(Some(file), registryConfiguration, load)
        == ResolvedConfiguration(None, registryConfiguration, load)
    ensures ResolvedConfiguration(Some(file), registryConfiguration, load).Err? ==>
        ResolvedConfiguration(Some(file), registryConfiguration, load).error.DefaultUnavailable?
  {
  }

  /** Whatever document is used, every key of the caller's mapping keeps
      its value (a list-valued `recognizers` is never merged element-wise),
      and only absent keys come from that document. */
  lemma CallerKeysWin(confFile: Option<string>, registryConfiguration: Option<Configuration>,
                      load: string -> LoadResult)
    requires ResolvedConfiguration(confFile, registryConfiguration, load).Ok?
    ensures var used := if FileGiven(confFile) && load(confFile.value).Loaded? && load(confFile.value).document.Dict?
                        then load(confFile.value) else load(DefaultConfFile);
            used.Loaded? && used.document.Dict? &&
            CallerFirstMerge(Initial(registryConfiguration), used.document.fields,
                             ResolvedConfiguration(confFile, registryConfiguration, load).value)
  {
  }
}
