# Recognizer registry provider, modelled in Dafny

This project models `RecognizerRegistryProvider` of the Presidio analyzer.
The provider turns a declarative registry configuration into the ordered
list of detector instances that a `RecognizerRegistry` holds. It does so in
five steps:

- **Source resolution.** An inline mapping, a configuration file or the
  packaged `default_recognizers.yaml` is chosen. Absent top-level keys are
  then filled, key by key, from the file that was read. The caller's keys
  win.
- **Field defaults.** `supported_languages` defaults to `["en"]`,
  `recognizers` to `[]`, and `global_regex_flags` to
  `re.DOTALL | re.MULTILINE | re.IGNORECASE` (the integer 26).
- **Language-scope expansion.** One entry becomes one
  `(supported_language, context)` scope per language. Three entry shapes
  are handled.
- **Classification.** Entries are split into predefined entries (bare
  names, `type: predefined`) and custom entries (no type, `type: custom`).
  Entries of any other type are dropped.
- **Construction and assembly.** Predefined entries are built by name from
  a library of classes. Custom entries are built by
  `PatternRecognizer.from_dict`. Predefined instances come first. Every
  pattern recognizer then gets the registry's flags.

Modules:

- `Values` holds the untyped document model (`Value`) and the bits of
  Python semantics the code relies on: truth values, `in` on strings, and
  what `for` iterates over.
- `Entries` holds the pure helpers: entry accessors, `ScopesOf`, the split
  and the keyword arguments.
- `ConfigSource` holds the merge and the resolved configuration as a
  function, with its laws.
- `Assembly` holds the instances, the registry as a function
  (`BuildRegistry`) and the laws about them.
- `Provider` holds the class `RecognizerRegistryProvider`. Its fields are
  `configuration` and `supportedLanguages`. Its methods follow the source's
  loops and are proved to compute the functions of `ConfigSource` and
  `Assembly`.

`create_recognizer_registry` is one method in the source. Here it is
`CreateRecognizerRegistry` plus one method per loop: `ResolveFields`,
`CreatePredefinedGroup`, `CreatePredefinedRecognizers`,
`CreateCustomGroup` and `ApplyGlobalRegexFlags`. Together they run the
same steps in the same order.

Exceptions the source raises become `Err` results:

- KeyError, TypeError or IndexError while expanding or reading an entry
  becomes `MalformedEntry`. This includes a TypeError from iterating a
  registry-wide `supported_languages` that is not a list or a string.
- A `recognizers` node that cannot be iterated as entries becomes
  `MalformedRecognizers`.
- Calling the `None` that `getattr` returns for an unknown name becomes
  `NotCallable(name)`.
- Giving both a file and an inline mapping becomes `BothSourcesGiven`.
- A packaged default that cannot be read becomes `DefaultUnavailable`.

The order in which errors arise follows the code. For example, a predefined
entry's scopes are expanded before its `enabled` field is checked, so a
disabled predefined entry with a bad `supported_languages` still raises. A
custom entry is checked first, so a disabled one never raises.

An unknown predefined name is not skipped. `getattr(..., None)` returns
`None` for it, and calling that `None` raises
(presidio-analyzer/presidio_analyzer/recognizer_registry_provider.py:235-237).
The model returns `NotCallable(name)`, as `UnknownPredefinedNameRaises`
states.

## Model

| member | source | states |
|---|---|---|
| ConfigSource.MergeMissing | presidio-analyzer/presidio_analyzer/recognizer_registry_provider.py:55-56 | the merged keys are the caller's keys plus the defaults' keys; every caller key keeps its value; only absent keys take the default's value (a shallow merge) |
| ConfigSource.AddMissingKeys | presidio-analyzer/presidio_analyzer/recognizer_registry_provider.py:53-57 | succeeds exactly when the file loads as a mapping, and then is the caller-first merge; a missing file is the IOError case; a parse error or a non-mapping document is another exception |
| ConfigSource.BothSourcesAreRefused | presidio-analyzer/presidio_analyzer/recognizer_registry_provider.py:63-67 | the resolution is the usage error exactly when a truthy file and a non-empty inline mapping are both given |
| ConfigSource.GivenFileIsTakenAsIs | presidio-analyzer/presidio_analyzer/recognizer_registry_provider.py:69-84 | a file given alone that loads as a mapping is the configuration exactly |
| ConfigSource.FailedFileFallsBackToDefault | presidio-analyzer/presidio_analyzer/recognizer_registry_provider.py:80-101 | a file that is missing, unparsable or not a mapping gives the same result as giving no file; its failure never escapes |
| ConfigSource.CallerKeysWin | presidio-analyzer/presidio_analyzer/recognizer_registry_provider.py:71-101 | whichever document was used, the result is the caller-first merge of the caller's copied mapping with it |
| Provider.RecognizerRegistryProvider.GetConfiguration | presidio-analyzer/presidio_analyzer/recognizer_registry_provider.py:59-103 | computes the resolved configuration; with both sources it fails before opening any file; otherwise it opens only the default, or the given file followed by the default when the file fails |
| Provider.RecognizerRegistryProvider.New | presidio-analyzer/presidio_analyzer/recognizer_registry_provider.py:42-51 | a fresh provider holds the resolved configuration and no languages yet; a resolution error gives no provider; with both sources no file is opened, and otherwise the files are opened as in `GetConfiguration` |
| Entries.IsEnabled | presidio-analyzer/presidio_analyzer/recognizer_registry_provider.py:105-108 | a mapping is disabled exactly when its `enabled` field is present and falsy; a bare name is enabled, and it raises when it contains "enabled" |
| Assembly.BareNameInstances | presidio-analyzer/presidio_analyzer/recognizer_registry_provider.py:110-129 | a bare name is built once per registry language by the library class of that same name; its kwargs are exactly the scope, because it has no fields of its own and its context is None |
| Assembly.StructuredPredefinedInstances | presidio-analyzer/presidio_analyzer/recognizer_registry_provider.py:110-129 | a predefined mapping is built once per registry language by the class its `name` field names; each instance gets the mapping's fields except `enabled`, `type`, `supported_languages` and `name`, plus its scope's language and the mapping's `context` field, or None when it has none |
| Entries.ScopesOf | presidio-analyzer/presidio_analyzer/recognizer_registry_provider.py:131-159 | no declared languages: one scope per registry language, with the entry's context; plain codes: one scope per code, with no context; `{language, context}` maps: one scope per map, with its own context; the first element decides the form; an empty or malformed list raises |
| Entries.DecodeItems | presidio-analyzer/presidio_analyzer/recognizer_registry_provider.py:174-181 | the `recognizers` items are read as entries exactly when each is a string or a mapping, and each entry is its item again |
| Entries.Filter | presidio-analyzer/presidio_analyzer/recognizer_registry_provider.py:174-181 | a comprehension's result holds exactly the input elements that pass its condition |
| Entries.SplitRecognizers | presidio-analyzer/presidio_analyzer/recognizer_registry_provider.py:161-182 | predefined holds exactly the bare names and `type == "predefined"` entries; custom holds exactly the mappings with no type or `type == "custom"`; the two share no entry; other types appear in neither; custom entries are all mappings |
| Entries.SplitPreservesOrder | presidio-analyzer/presidio_analyzer/recognizer_registry_provider.py:174-181 | splitting a concatenation concatenates the splits, so each group keeps declaration order |
| Entries.SplitNeverDuplicates | presidio-analyzer/presidio_analyzer/recognizer_registry_provider.py:174-181 | the two groups together are never longer than the input |
| Entries.ConstructionKwargs | presidio-analyzer/presidio_analyzer/recognizer_registry_provider.py:192-195 | the kwargs are the entry's fields minus the excluded keys, overlaid by the scope's two keys, and the scope wins |
| Assembly.LookupPredefined | presidio-analyzer/presidio_analyzer/recognizer_registry_provider.py:234-237 | the lookup succeeds exactly for a string name present in the library, giving that class; an unknown bare name is `NotCallable` |
| Assembly.WithGlobalFlags | presidio-analyzer/presidio_analyzer/recognizer_registry_provider.py:243-245 | every pattern recognizer carries the registry flags afterwards; every other instance is unchanged; the length is kept |
| Assembly.MissingFieldsTakeDefaults | presidio-analyzer/presidio_analyzer/recognizer_registry_provider.py:200-220 | each absent field independently takes `["en"]`, `[]` or 26, and a present field is used as it is; no `recognizers` field gives an empty registry |
| Assembly.PredefinedInstancesAppend | presidio-analyzer/presidio_analyzer/recognizer_registry_provider.py:226-237 | the instances of `a + b` are those of `a` followed by those of `b`, and an error in `a` stops the loop first |
| Assembly.CustomInstancesAppend | presidio-analyzer/presidio_analyzer/recognizer_registry_provider.py:239-241 | the same for the custom loop |
| Assembly.PredefinedInstancesFromLibrary | presidio-analyzer/presidio_analyzer/recognizer_registry_provider.py:234-237 | every predefined-group instance is built by a library class |
| Assembly.CustomInstancesFromDict | presidio-analyzer/presidio_analyzer/recognizer_registry_provider.py:184-198 | every custom-group instance is a pattern recognizer made by `from_dict` |
| Assembly.GroupsStayInOrder | presidio-analyzer/presidio_analyzer/recognizer_registry_provider.py:243-247 | the flag override leaves a library group ahead of a `from_dict` group |
| Assembly.PredefinedPrecedeCustom | presidio-analyzer/presidio_analyzer/recognizer_registry_provider.py:224-247 | in the registry, no custom instance comes before a predefined one |
| Assembly.PredefinedEntryYield | presidio-analyzer/presidio_analyzer/recognizer_registry_provider.py:226-237 | a predefined entry yields one instance per scope when enabled and none when disabled; each instance has the entry's kwargs for its scope and the class looked up by name |
| Assembly.CustomEntryYield | presidio-analyzer/presidio_analyzer/recognizer_registry_provider.py:239-241 | a custom entry yields none when disabled, one for a legacy entry, and otherwise one per scope |
| Assembly.PredefinedInstancesCount | presidio-analyzer/presidio_analyzer/recognizer_registry_provider.py:226-237 | the predefined group's size is the sum of its entries' counts |
| Assembly.CustomInstancesCount | presidio-analyzer/presidio_analyzer/recognizer_registry_provider.py:239-241 | the custom group's size is the sum of its entries' counts |
| Assembly.RegistrySize | presidio-analyzer/presidio_analyzer/recognizer_registry_provider.py:224-247 | the registry holds exactly the predefined counts plus the custom counts |
| Assembly.DisabledEntryContributesNothing | presidio-analyzer/presidio_analyzer/recognizer_registry_provider.py:226-241 | a mapping whose `enabled` field is falsy contributes no instance as a custom entry, and none as a predefined entry once its scopes expand |
| Assembly.LegacyEntryYieldsOne | presidio-analyzer/presidio_analyzer/recognizer_registry_provider.py:186-187 | an enabled custom entry with `supported_language` yields one pattern recognizer built from its full field set, whatever the registry languages are |
| Assembly.CustomEntryOnePerScope | presidio-analyzer/presidio_analyzer/recognizer_registry_provider.py:189-198 | any other enabled custom entry yields one pattern recognizer per scope, in order, built from its fields minus `enabled`, `type` and `supported_languages`, overlaid by the scope |
| Assembly.UnknownPredefinedNameRaises | presidio-analyzer/presidio_analyzer/recognizer_registry_provider.py:235-237 | a bare name missing from the library raises as soon as the registry has a language |
| Assembly.EveryRecognizerHasALanguage | presidio-analyzer/presidio_analyzer/recognizer_registry_provider.py:184-241 | every detector in a built registry is bound to one `supported_language`: a scope's language, or a legacy entry's own field |
| Assembly.RegistryCarriesResolvedSettings | presidio-analyzer/presidio_analyzer/recognizer_registry_provider.py:243-249 | the registry receives the resolved languages and flags unchanged, and every pattern recognizer in it carries those flags |
| Assembly.UndeclaredLanguagesFanOut | presidio-analyzer/presidio_analyzer/recognizer_registry_provider.py:143-148 | one enabled custom entry without language fields yields exactly one pattern recognizer per registry language, in order, with the entry's context and the resolved flags |
| Assembly.PlainLanguageListFanOut | presidio-analyzer/presidio_analyzer/recognizer_registry_provider.py:150-154 | a custom entry with plain codes yields one pattern recognizer per code, in order, with no context, and keeps its other fields (its patterns among them) |
| Provider.RecognizerRegistryProvider.ResolveFields | presidio-analyzer/presidio_analyzer/recognizer_registry_provider.py:208-220 | the loop yields the three fields, each from the configuration or else its default |
| Provider.RecognizerRegistryProvider.CreatePredefinedRecognizers | presidio-analyzer/presidio_analyzer/recognizer_registry_provider.py:226-237 | the loop over one entry's scopes computes that entry's predefined instances or its error |
| Provider.RecognizerRegistryProvider.CreatePredefinedGroup | presidio-analyzer/presidio_analyzer/recognizer_registry_provider.py:224-237 | the predefined loop computes the predefined group's instances, or the first error |
| Provider.RecognizerRegistryProvider.CreateCustomRecognizers | presidio-analyzer/presidio_analyzer/recognizer_registry_provider.py:184-198 | the append loop computes one custom entry's instances |
| Provider.RecognizerRegistryProvider.CreateCustomGroup | presidio-analyzer/presidio_analyzer/recognizer_registry_provider.py:239-241 | the custom loop computes the custom group's instances, skipping disabled entries |
| Provider.RecognizerRegistryProvider.ApplyGlobalRegexFlags | presidio-analyzer/presidio_analyzer/recognizer_registry_provider.py:243-245 | the override loop computes the flagged instances |
| Provider.RecognizerRegistryProvider.CreateRecognizerRegistry | presidio-analyzer/presidio_analyzer/recognizer_registry_provider.py:206-249 | stores the resolved languages, leaves the configuration unchanged and returns the registry `BuildRegistry` defines, so every law above holds of it |

## Left out

- Reading and parsing files is not modelled. The YAML load becomes a loader function from path to `Loaded(document) \| NotFound \| ParseError`. Building the path of the packaged default (`_get_full_conf_path`) becomes the constant file name `default_recognizers.yaml`.
- A file path is modelled by its text. `FileGiven` takes an empty string as "no file", although a `Path("")` object is truthy in Python.
- Detector construction is an opaque record of constructor, kind and kwargs. `PatternRecognizer.from_dict`, the predefined classes, and the regex engine are not modelled. The check for a missing `patterns` or `supported_entity` happens inside `PatternRecognizer`, so it is not modelled as a construction error.
- The `getattr` dispatch becomes a `Library` map from name to kind. A module attribute that is not a recognizer class is not modelled.
- A mapping node (`Dict`) has string keys only. The non-string keys that `yaml.safe_load` can produce (for example `1:` or `true:`) cannot be represented.
- Pattern scores are carried as reals and are never computed with.
- Logging of warnings is not modelled.
- Values.Iterate: iterating a mapping node yields an error in the model. Python yields the mapping's keys in insertion order, and a Dafny map has no order.
- Entries.DecodeItems: a list-valued item of `recognizers` is refused. Python would classify it as custom and then fail later, or not fail at all when there are no languages.
- Provider.RecognizerRegistryProvider.New: the constructor contract uses `fresh`. The shallow `.copy()` of the caller's mapping needs no model, because Dafny maps are values and the caller's mapping cannot be changed.
- The Python instances are objects whose `global_regex_flags` field is overwritten in place. The model rebuilds a sequence of values instead. No instance is shared between two places, so no aliasing is lost.
- `analyzer_engine_provider.py`, `analyzer_loader.py`, `setup.py` and the anonymizer's `custom.py` are not part of this model.
