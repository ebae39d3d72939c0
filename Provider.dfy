/** `RecognizerRegistryProvider`: resolves its configuration once when
    created, then builds the recognizer registry from it on request. Its
    methods follow the provider's own steps and are proved to compute the
    values defined in ConfigSource and Assembly. */
module Provider {
  import opened Values
  import opened Entries
  import opened ConfigSource
  import opened Assembly

  class RecognizerRegistryProvider {
    /** The resolved configuration mapping. */
    var configuration: Configuration
    /** The registry-wide languages; `None` until a registry is built. */
    var supportedLanguages: Value

    constructor (configuration: Configuration)
      ensures this.configuration == configuration && supportedLanguages == Null
    {
      this.configuration := configuration;
      supportedLanguages := Null;
    }

    /** `__init__`: resolve the configuration; the usage error, or a failure
        of the packaged default, leaves no provider. */
    static method New(confFile: Option<string>, registryConfiguration: Option<Configuration>,
                      load: string -> LoadResult)
      returns (r: Result<RecognizerRegistryProvider, ConfigError>, attempted: seq<string>)
      ensures var resolved := ResolvedConfiguration(confFile, registryConfiguration, load);
        && (resolved.Err? ==> r == Err(resolved.error))
        && (resolved.Ok? ==> r.Ok? && fresh(r.value) && r.value.configuration == resolved.value
                             && r.value.supportedLanguages == Null)
      ensures ResolvedConfiguration(confFile, registryConfiguration, load) == Err(BothSourcesGiven) ==> attempted == []
      ensures !FileGiven(confFile) ==> attempted == [DefaultConfFile]
      ensures !InlineGiven(registryConfiguration) && FileGiven(confFile) ==>
        attempted == if AddMissingKeys(map[], load(confFile.value)).Ok?
                  then [confFile.value] else [confFile.value, DefaultConfFile]
    {
      var configuration;
      configuration, attempted := GetConfiguration(confFile, registryConfiguration, load);
      if configuration.Err? {
        return Err(configuration.error), attempted;
      }
      var provider := new RecognizerRegistryProvider(configuration.value);
      r := Ok(provider);
    }

    /** `_get_configuration`. `attempted` lists the files it tried to read, in
        order: none when both sources are given, so the usage error is
        raised before any read. */
    static method GetConfiguration(confFile: Option<string>, registryConfiguration: Option<Configuration>,
                                   load: string -> LoadResult)
      returns (r: Result<Configuration, ConfigError>, attempted: seq<string>)
      ensures r == ResolvedConfiguration(confFile, registryConfiguration, load)
      ensures r == Err(BothSourcesGiven) <==> FileGiven(confFile) && InlineGiven(registryConfiguration)
      ensures r == Err(BothSourcesGiven) ==> attempted == []
      ensures r != Err(BothSourcesGiven) && !FileGiven(confFile) ==> attempted == [DefaultConfFile]
      ensures r != Err(BothSourcesGiven) && FileGiven(confFile) ==>
        attempted == if AddMissingKeys(Initial(registryConfiguration), load(confFile.value)).Ok?
                  then [confFile.value] else [confFile.value, DefaultConfFile]
    {
      if FileGiven(confFile) && InlineGiven(registryConfiguration) {
        return Err(BothSourcesGiven), [];
      }
      var configuration: Configuration := map[];
      if InlineGiven(registryConfiguration) {
        configuration := registryConfiguration.value;
      }
      attempted := [];
      if !FileGiven(confFile) {
        attempted := attempted + [DefaultConfFile];
        var merged := AddMissingKeys(configuration, load(DefaultConfFile));
        if merged.Err? {
          return Err(DefaultUnavailable(merged.error)), attempted;
        }
        configuration := merged.value;
      } else {
        attempted := attempted + [confFile.value];
        var merged := AddMissingKeys(configuration, load(confFile.value));
        if merged.Ok? {
          configuration := merged.value;
        } else {
          // IOError and any other exception are handled alike: use the default
          attempted := attempted + [DefaultConfFile];
          var fallback := AddMissingKeys(configuration, load(DefaultConfFile));
          if fallback.Err? {
            return Err(DefaultUnavailable(fallback.error)), attempted;
          }
          configuration := fallback.value;
        }
      }
      r := Ok(configuration);
    }

    /** `_create_custom_recognizers`, over the registry languages stored by
        the build in progress. */
    method CreateCustomRecognizers(recognizer: Entry) returns (r: Result<seq<Recognizer>, BuildError>)
      requires recognizer.Structured?
      ensures r == CustomEntryInstances(recognizer, supportedLanguages)
    {
      if SupportedLanguageKey in recognizer.fields {
        return Ok([Recognizer(FromDict, PatternBased, recognizer.fields, None)]);
      }
      var scopes := ScopesOf(recognizer, supportedLanguages);
      if scopes.Err? {
        return Err(scopes.error);
      }
      var recognizers: seq<Recognizer> := [];
      for i := 0 to |scopes.value|
        invariant |recognizers| == i
        invariant forall k :: 0 <= k < i ==> recognizers[k] == CustomRecognizer(recognizer.fields, scopes.value[k])
      {
        var kwargs := ConstructionKwargs(recognizer.fields, CustomExcluded, scopes.value[i]);
        recognizers := recognizers + [Recognizer(FromDict, PatternBased, kwargs, None)];
      }
      assert recognizers == seq(|scopes.value|, k requires 0 <= k < |scopes.value| =>
        CustomRecognizer(recognizer.fields, scopes.value[k]));
      r := Ok(recognizers);
    }

    /** The field loop of `create_recognizer_registry`: each registry
        field from the configuration, or its default when absent. */
    static method ResolveFields(configuration: Configuration) returns (fields: map<string, Value>)
      ensures fields.Keys == DefaultValues.Keys
      ensures forall k :: k in fields ==> fields[k] == ResolvedField(configuration, k)
    {
      fields := map[];
      for i := 0 to |RegistryFields|
        invariant fields.Keys == set k | k in RegistryFields[..i]
        invariant forall k :: k in fields ==> k in DefaultValues && fields[k] == ResolvedField(configuration, k)
      {
        var field := RegistryFields[i];
        fields := fields[field := if field in configuration then configuration[field] else DefaultValues[field]];
      }
      assert RegistryFields[..3] == RegistryFields;
    }

    /** One pass of the predefined loop: for every scope of one entry,
        check that it is enabled, look its class up and call it. */
    method CreatePredefinedRecognizers(recognizer: Entry, library: Library) returns (r: Result<seq<Recognizer>, BuildError>)
      ensures r == PredefinedEntryInstances(recognizer, supportedLanguages, library)
    {
      var scopes := ScopesOf(recognizer, supportedLanguages);
      if scopes.Err? {
        return Err(scopes.error);
      }
      var instances: seq<Recognizer> := [];
      for j := 0 to |scopes.value|
        invariant j > 0 ==> IsEnabled(recognizer).Ok?
        invariant j > 0 && IsEnabled(recognizer).value ==> LookupPredefined(recognizer, library).Ok?
        invariant j > 0 && IsEnabled(recognizer).value ==>
          instances == seq(j, k requires 0 <= k < j =>
            PredefinedRecognizer(recognizer, scopes.value[k], LookupPredefined(recognizer, library).value))
        invariant j == 0 || !IsEnabled(recognizer).value ==> instances == []
      {
        var enabled := IsEnabled(recognizer);
        if enabled.Err? {
          return Err(enabled.error);
        }
        if enabled.value {
          var kwargs := ConstructionKwargs(Items(recognizer), PredefinedExcluded, scopes.value[j]);
          var found := LookupPredefined(recognizer, library);
          if found.Err? {
            return Err(found.error);
          }
          instances := instances + [Recognizer(Predefined(found.value.className), found.value.kind, kwargs, None)];
        }
      }
      r := Ok(instances);
    }

    /** The predefined loop of `create_recognizer_registry`. */
    method CreatePredefinedGroup(predefined: seq<Entry>, library: Library) returns (r: Result<seq<Recognizer>, BuildError>)
      ensures r == PredefinedInstances(predefined, supportedLanguages, library)
    {
      var instances: seq<Recognizer> := [];
      for i := 0 to |predefined|
        invariant PredefinedInstances(predefined[..i], supportedLanguages, library) == Ok(instances)
      {
        var made := CreatePredefinedRecognizers(predefined[i], library);
        assert predefined[..i + 1][..i] == predefined[..i];
        if made.Err? {
          PredefinedFailureStops(predefined, i, supportedLanguages, library);
          return Err(made.error);
        }
        instances := instances + made.value;
      }
      assert predefined[..|predefined|] == predefined;
      r := Ok(instances);
    }

    /** The custom loop of `create_recognizer_registry`: enabled entries only. */
    method CreateCustomGroup(custom: seq<Entry>) returns (r: Result<seq<Recognizer>, BuildError>)
      requires forall e :: e in custom ==> e.Structured?
      ensures r == CustomInstances(custom, supportedLanguages)
    {
      var instances: seq<Recognizer> := [];
      for i := 0 to |custom|
        invariant CustomInstances(custom[..i], supportedLanguages) == Ok(instances)
      {
        var recognizer := custom[i];
        assert recognizer in custom;
        assert custom[..i + 1][..i] == custom[..i];
        if IsEnabled(recognizer) == Ok(true) {
          var made := CreateCustomRecognizers(recognizer);
          if made.Err? {
            CustomFailureStops(custom, i, supportedLanguages);
            return Err(made.error);
          }
          instances := instances + made.value;
        } else {
          assert instances + [] == instances;
        }
      }
      assert custom[..|custom|] == custom;
      r := Ok(instances);
    }

    /** The override loop: write `flags` onto every pattern recognizer. */
    static method ApplyGlobalRegexFlags(instances: seq<Recognizer>, flags: Value) returns (r: seq<Recognizer>)
      ensures r == WithGlobalFlags(instances, flags)
    {
      r := instances;
      for i := 0 to |r|
        invariant |r| == |instances|
        invariant forall k :: 0 <= k < i ==> r[k] == Flagged(instances[k], flags)
        invariant forall k :: i <= k < |r| ==> r[k] == instances[k]
      {
        if r[i].kind.PatternBased? {
          r := r[i := r[i].(globalRegexFlags := Some(flags))];
        }
      }
    }

    /** `create_recognizer_registry`: resolve the three fields, store the
        languages, build the predefined and then the custom instances,
        override the flags of every pattern recognizer and assemble. */
    method CreateRecognizerRegistry(library: Library) returns (r: Result<Registry, BuildError>)
      modifies this
      ensures configuration == old(configuration)
      ensures supportedLanguages == ResolvedField(configuration, SupportedLanguagesKey)
      ensures r == BuildRegistry(configuration, library)
    {
      var fields := ResolveFields(configuration);
      supportedLanguages := fields[SupportedLanguagesKey];

      var decoded := DecodeRecognizers(fields[RecognizersKey]);
      if decoded.None? {
        return Err(MalformedRecognizers);
      }
      var split := SplitRecognizers(decoded.value);
      var predefined, custom := split.0, split.1;

      var instances := CreatePredefinedGroup(predefined, library);
      if instances.Err? {
        return Err(instances.error);
      }
      var customInstances := CreateCustomGroup(custom);
      if customInstances.Err? {
        return Err(customInstances.error);
      }
      var all := ApplyGlobalRegexFlags(instances.value + customInstances.value, fields[GlobalRegexFlagsKey]);
      r := Ok(Registry(all, supportedLanguages, fields[GlobalRegexFlagsKey]));
    }
  }

  /** An entry that raises ends the predefined group with its error. */
  lemma PredefinedFailureStops(entries: seq<Entry>, i: nat, languages: Value, library: Library)
    requires i < |entries|
    requires PredefinedInstances(entries[..i], languages, library).Ok?
    requires PredefinedEntryInstances(entries[i], languages, library).Err?
    ensures PredefinedInstances(entries, languages, library) == PredefinedEntryInstances(entries[i], languages, library)
  {
    assert entries[..i + 1][..i] == entries[..i];
    assert entries == entries[..i + 1] + entries[i + 1..];
    PredefinedInstancesAppend(entries[..i + 1], entries[i + 1..], languages, library);
  }

  /** An entry that raises ends the custom group with its error. */
  lemma CustomFailureStops(entries: seq<Entry>, i: nat, languages: Value)
    requires i < |entries|
    requires forall e :: e in entries ==> e.Structured?
    requires CustomInstances(entries[..i], languages).Ok?
    requires CustomEntryContribution(entries[i], languages).Err?
    ensures CustomInstances(entries, languages) == CustomEntryContribution(entries[i], languages)
  {
    assert entries[..i + 1][..i] == entries[..i];
    assert entries == entries[..i + 1] + entries[i + 1..];
    assert forall e :: e in entries[..i + 1] ==> e in entries;
    assert forall e :: e in entries[i + 1..] ==> e in entries;
    CustomInstancesAppend(entries[..i + 1], entries[i + 1..], languages);
  }
}
