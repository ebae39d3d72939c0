/** What `create_recognizer_registry` builds, as values: the resolved
    registry fields, the detector instances each entry contributes, the
    global regex flags override and the assembled registry; and the laws
    the assembly obeys. Detector construction is an abstract record of the
    constructor used, its kind and its keyword arguments. */
module Assembly {
  import opened Values
  import opened Entries

  const RecognizersKey := "recognizers"
  const GlobalRegexFlagsKey := "global_regex_flags"

  /** Flag bits of Python's `re` module. */
  const IGNORECASE: bv32 := 2
  const MULTILINE: bv32 := 8
  const DOTALL: bv32 := 16

  /** `re.DOTALL | re.MULTILINE | re.IGNORECASE`, as an opaque integer. */
  const DefaultGlobalRegexFlags: int := (DOTALL | MULTILINE | IGNORECASE) as int

  /** `default_values`: the value a registry field takes when absent. */
  const DefaultValues: map<string, Value> := map[
    SupportedLanguagesKey := List([Str("en")]),
    RecognizersKey := List([]),
    GlobalRegexFlagsKey := Int(DefaultGlobalRegexFlags)]

  /** The registry fields in the order the provider visits them. */
  const RegistryFields: seq<string> := [SupportedLanguagesKey, RecognizersKey, GlobalRegexFlagsKey]

  /** `configuration.get(field, default_values[field])`. */
  function ResolvedField(configuration: Configuration, field: string): Value
    requires field in DefaultValues
  {
    if field in configuration then configuration[field] else DefaultValues[field]
  }

  /** Whether a constructed detector is a `PatternRecognizer`. */
  datatype RecognizerKind = PatternBased | OtherKind

  /** How an instance was made: a class of the predefined library called
      by name, or `PatternRecognizer.from_dict`. */
  datatype Constructor = Predefined(className: string) | FromDict

  /** A detector instance: constructor, kind, the keyword arguments it was
      built from, and the global regex flags written onto it afterwards
      (None: whatever its constructor chose, which is not modelled). */
  datatype Recognizer = Recognizer(ctor: Constructor, kind: RecognizerKind, kwargs: Configuration,
                                   globalRegexFlags: Option<Value>)

  /** The predefined recognizer classes available by name, with their kind. */
  type Library = map<string, RecognizerKind>

  /** A class found in the library. */
  datatype LibraryClass = LibraryClass(className: string, kind: RecognizerKind)

  /** The assembled registry. */
  datatype Registry = Registry(recognizers: seq<Recognizer>, supportedLanguages: Value, globalRegexFlags: Value)

  /** `getattr(predefined_recognizers, name, None)`, followed by the call:
      a missing `name` field raises KeyError, a non-string name TypeError,
      and an unknown name yields None, whose call raises TypeError. */
  function LookupPredefined(e: Entry, library: Library): (r: Result<LibraryClass, BuildError>)
    ensures r.Ok? <==> Name(e).Some? && Name(e).value.Str? && Name(e).value.s in library
    ensures r.Ok? ==> r.value == LibraryClass(Name(e).value.s, library[Name(e).value.s])
    ensures e.BareName? && e.name !in library ==> r == Err(NotCallable(e.name))
  {
    match Name(e)
    case None => Err(MalformedEntry)
    case Some(name) =>
      if !name.Str? then Err(MalformedEntry)
      else if name.s in library then Ok(LibraryClass(name.s, library[name.s]))
      else Err(NotCallable(name.s))
  }

  /** Sequencing of two steps that may raise: the first error wins, and
      otherwise the instances are concatenated in order. */
  function Then(first: Result<seq<Recognizer>, BuildError>, second: Result<seq<Recognizer>, BuildError>)
    : (r: Result<seq<Recognizer>, BuildError>)
    ensures first.Err? ==> r == first
    ensures first.Ok? && second.Err? ==> r == second
    ensures r.Ok? <==> first.Ok? && second.Ok?
    ensures r.Ok? ==> r.value == first.value + second.value
  {
    match first
    case Err(_) => first
    case Ok(p) =>
      match second
      case Err(x) => Err(x)
      case Ok(q) => Ok(p + q)
  }

  /** One predefined instance for one scope. */
  function PredefinedRecognizer(e: Entry, scope: Configuration, found: LibraryClass): Recognizer {
    Recognizer(Predefined(found.className), found.kind, ConstructionKwargs(Items(e), PredefinedExcluded, scope), None)
  }

  /** What one predefined entry contributes: the scopes are expanded first
      (even for a disabled entry); then, per scope, the entry is checked to
      be enabled and its class is looked up and called. */
  function PredefinedEntryInstances(e: Entry, languages: Value, library: Library): Result<seq<Recognizer>, BuildError> {
    match ScopesOf(e, languages)
    case Err(x) => Err(x)
    case Ok(scopes) =>
      if scopes == [] then Ok([])
      else
        match IsEnabled(e)
        case Err(x) => Err(x)
        case Ok(enabled) =>
          if !enabled then Ok([])
          else
            match LookupPredefined(e, library)
            case Err(x) => Err(x)
            case Ok(found) =>
              Ok(seq(|scopes|, i requires 0 <= i < |scopes| => PredefinedRecognizer(e, scopes[i], found)))
  }

  /** The predefined entries' instances, entry by entry in declaration order. */
  function PredefinedInstances(entries: seq<Entry>, languages: Value, library: Library): Result<seq<Recognizer>, BuildError>
    decreases |entries|
  {
    if entries == [] then Ok([])
    else Then(PredefinedInstances(entries[..|entries| - 1], languages, library),
              PredefinedEntryInstances(entries[|entries| - 1], languages, library))
  }

  /** One custom instance for one scope. */
  function CustomRecognizer(fields: map<string, Value>, scope: Configuration): Recognizer {
    Recognizer(FromDict, PatternBased, ConstructionKwargs(fields, CustomExcluded, scope), None)
  }

  /** `_create_custom_recognizers`: a legacy entry with `supported_language`
      is built once from all its fields, without expansion; any other entry
      once per scope. */
  function CustomEntryInstances(e: Entry, languages: Value): Result<seq<Recognizer>, BuildError>
    requires e.Structured?
  {
    if SupportedLanguageKey in e.fields then Ok([Recognizer(FromDict, PatternBased, e.fields, None)])
    else
      match ScopesOf(e, languages)
      case Err(x) => Err(x)
      case Ok(scopes) =>
        Ok(seq(|scopes|, i requires 0 <= i < |scopes| => CustomRecognizer(e.fields, scopes[i])))
  }

  /** What one custom entry contributes: nothing when disabled. */
  function CustomEntryContribution(e: Entry, languages: Value): Result<seq<Recognizer>, BuildError>
    requires e.Structured?
  {
    if IsEnabled(e) == Ok(true) then CustomEntryInstances(e, languages) else Ok([])
  }

  /** The custom entries' instances, entry by entry in declaration order. */
  function CustomInstances(entries: seq<Entry>, languages: Value): Result<seq<Recognizer>, BuildError>
    requires forall e :: e in entries ==> e.Structured?
    decreases |entries|
  {
    if entries == [] then Ok([])
    else Then(CustomInstances(entries[..|entries| - 1], languages),
              CustomEntryContribution(entries[|entries| - 1], languages))
  }

  /** One instance after the global override. */
  function Flagged(r: Recognizer, flags: Value): Recognizer {
    if r.kind.PatternBased? then r.(globalRegexFlags := Some(flags)) else r
  }

  /** The override loop: every pattern recognizer gets the registry's
      flags, every other instance is left as it was. */
  function WithGlobalFlags(instances: seq<Recognizer>, flags: Value): (r: seq<Recognizer>)
    ensures |r| == |instances|
    ensures forall i :: 0 <= i < |r| && instances[i].kind.PatternBased? ==>
      r[i] == instances[i].(globalRegexFlags := Some(flags))
    ensures forall i :: 0 <= i < |r| && !instances[i].kind.PatternBased? ==> r[i] == instances[i]
  {
    seq(|instances|, i requires 0 <= i < |instances| => Flagged(instances[i], flags))
  }

  /** The `recognizers` node as entries. */
  function DecodeRecognizers(v: Value): Option<seq<Entry>> {
    match Iterate(v)
    case None => None
    case Some(items) => DecodeItems(items)
  }

  /** `create_recognizer_registry`, as a value. */
  function BuildRegistry(configuration: Configuration, library: Library): Result<Registry, BuildError> {
    var languages := ResolvedField(configuration, SupportedLanguagesKey);
    var flags := ResolvedField(configuration, GlobalRegexFlagsKey);
    match DecodeRecognizers(ResolvedField(configuration, RecognizersKey))
    case None => Err(MalformedRecognizers)
    case Some(entries) =>
      var split := SplitRecognizers(entries);
      match Then(PredefinedInstances(split.0, languages, library), CustomInstances(split.1, languages))
      case Err(x) => Err(x)
      case Ok(instances) => Ok(Registry(WithGlobalFlags(instances, flags), languages, flags))
  }

  // ---------------------------------------------------------------------
  // Declaration order

  lemma ThenAssociative(a: Result<seq<Recognizer>, BuildError>, b: Result<seq<Recognizer>, BuildError>,
                        c: Result<seq<Recognizer>, BuildError>)
    ensures Then(Then(a, b), c) == Then(a, Then(b, c))
  {
    if a.Ok? && b.Ok? && c.Ok? {
      assert (a.value + b.value) + c.value == a.value + (b.value + c.value);
    }
  }

  /** The instances of `a + b` are those of `a` followed by those of `b`,
      and an error in `a` stops before `b`. */
  lemma {:induction false} PredefinedInstancesAppend(a: seq<Entry>, b: seq<Entry>, languages: Value, library: Library)
    ensures PredefinedInstances(a + b, languages, library)
         == Then(PredefinedInstances(a, languages, library), PredefinedInstances(b, languages, library))
    decreases |b|
  {
    if b == [] {
      assert a + b == a;
      var x := PredefinedInstances(a, languages, library);
      if x.Ok? { assert x.value + [] == x.value; }
    } else {
      var b' := b[..|b| - 1];
      var last := b[|b| - 1];
      assert (a + b)[..|a + b| - 1] == a + b';
      assert (a + b)[|a + b| - 1] == last;
      PredefinedInstancesAppend(a, b', languages, library);
      ThenAssociative(PredefinedInstances(a, languages, library), PredefinedInstances(b', languages, library),
                      PredefinedEntryInstances(last, languages, library));
    }
  }

  /** The same for custom entries. */
  lemma {:induction false} CustomInstancesAppend(a: seq<Entry>, b: seq<Entry>, languages: Value)
    requires forall e :: e in a ==> e.Structured?
    requires forall e :: e in b ==> e.Structured?
    ensures CustomInstances(a + b, languages) == Then(CustomInstances(a, languages), CustomInstances(b, languages))
    decreases |b|
  {
    if b == [] {
      assert a + b == a;
      var x := CustomInstances(a, languages);
      if x.Ok? { assert x.value + [] == x.value; }
    } else {
      var b' := b[..|b| - 1];
      var last := b[|b| - 1];
      assert (a + b)[..|a + b| - 1] == a + b';
      assert (a + b)[|a + b| - 1] == last;
      assert forall e :: e in b' ==> e in b;
      CustomInstancesAppend(a, b', languages);
      ThenAssociative(CustomInstances(a, languages), CustomInstances(b', languages),
                      CustomEntryContribution(last, languages));
    }
  }

  /** Every instance of the predefined group comes from the library. */
  lemma {:induction false} PredefinedInstancesFromLibrary(entries: seq<Entry>, languages: Value, library: Library)
    requires PredefinedInstances(entries, languages, library).Ok?
    ensures forall r :: r in PredefinedInstances(entries, languages, library).value ==> r.ctor.Predefined?
    decreases |entries|
  {
    if entries != [] {
      PredefinedInstancesFromLibrary(entries[..|entries| - 1], languages, library);
    }
  }

  /** Every instance of the custom group is a pattern recognizer made by `from_dict`. */
  lemma {:induction false} CustomInstancesFromDict(entries: seq<Entry>, languages: Value)
    requires forall e :: e in entries ==> e.Structured?
    requires CustomInstances(entries, languages).Ok?
    ensures forall r :: r in CustomInstances(entries, languages).value ==> r.ctor.FromDict? && r.kind.PatternBased?
    decreases |entries|
  {
    if entries != [] {
      var init, last := entries[..|entries| - 1], entries[|entries| - 1];
      assert forall e :: e in init ==> e in entries;
      CustomInstancesFromDict(init, languages);
      CustomContributionFromDict(last, languages);
    }
  }

  /** Every instance one custom entry contributes is a pattern recognizer
      made by `from_dict`. */
  lemma CustomContributionFromDict(e: Entry, languages: Value)
    requires e.Structured? && CustomEntryContribution(e, languages).Ok?
    ensures forall r :: r in CustomEntryContribution(e, languages).value ==> r.ctor.FromDict? && r.kind.PatternBased?
  {
  }

  /** What a successful build is made of: the resolved fields, the two
      groups of instances, and the override applied to their concatenation. */
  lemma BuildRegistryParts(configuration: Configuration, library: Library)
    requires BuildRegistry(configuration, library).Ok?
    ensures var languages := ResolvedField(configuration, SupportedLanguagesKey);
      var flags := ResolvedField(configuration, GlobalRegexFlagsKey);
      var entries := DecodeRecognizers(ResolvedField(configuration, RecognizersKey));
      && entries.Some?
      && var split := SplitRecognizers(entries.value);
      && PredefinedInstances(split.0, languages, library).Ok?
      && CustomInstances(split.1, languages).Ok?
      && BuildRegistry(configuration, library).value == Registry(
           WithGlobalFlags(PredefinedInstances(split.0, languages, library).value
                           + CustomInstances(split.1, languages).value, flags),
           languages, flags)
  {
  }

  /** The override keeps a library group followed by a `from_dict` group in that order. */
  lemma {:induction false} GroupsStayInOrder(p: seq<Recognizer>, q: seq<Recognizer>, flags: Value)
    requires forall r :: r in p ==> r.ctor.Predefined?
    requires forall r :: r in q ==> r.ctor.FromDict?
    ensures var rs := WithGlobalFlags(p + q, flags);
      forall i, j :: 0 <= i < j < |rs| && rs[j].ctor.Predefined? ==> rs[i].ctor.Predefined?
  {
    var rs := WithGlobalFlags(p + q, flags);
    forall i | 0 <= i < |rs|
      ensures rs[i].ctor == (p + q)[i].ctor
      ensures i < |p| ==> rs[i].ctor.Predefined?
      ensures i >= |p| ==> rs[i].ctor.FromDict?
    {
      if i < |p| { assert (p + q)[i] == p[i] && p[i] in p; }
      else { assert (p + q)[i] == q[i - |p|] && q[i - |p|] in q; }
    }
  }

  /** In the registry, every predefined entry's instance precedes every
      custom entry's instance. */
  lemma PredefinedPrecedeCustom(configuration: Configuration, library: Library)
    requires BuildRegistry(configuration, library).Ok?
    ensures var rs := BuildRegistry(configuration, library).value.recognizers;
      forall i, j :: 0 <= i < j < |rs| && rs[j].ctor.Predefined? ==> rs[i].ctor.Predefined?
  {
    BuildRegistryParts(configuration, library);
    var languages := ResolvedField(configuration, SupportedLanguagesKey);
    var split := SplitRecognizers(DecodeRecognizers(ResolvedField(configuration, RecognizersKey)).value);
    PredefinedInstancesFromLibrary(split.0, languages, library);
    CustomInstancesFromDict(split.1, languages);
    GroupsStayInOrder(PredefinedInstances(split.0, languages, library).value,
                      CustomInstances(split.1, languages).value,
                      ResolvedField(configuration, GlobalRegexFlagsKey));
  }

  // ---------------------------------------------------------------------
  // Counting instances

  /** How many instances a predefined entry yields: one per scope when
      enabled, none when disabled. */
  function PredefinedEntryCount(e: Entry, languages: Value): nat {
    if IsEnabled(e) == Ok(true) && ScopesOf(e, languages).Ok? then |ScopesOf(e, languages).value| else 0
  }

  /** How many instances a custom entry yields: none when disabled, one for
      a legacy `supported_language` entry, otherwise one per scope. */
  function CustomEntryCount(e: Entry, languages: Value): nat
    requires e.Structured?
  {
    if IsEnabled(e) != Ok(true) then 0
    else if SupportedLanguageKey in e.fields then 1
    else if ScopesOf(e, languages).Ok? then |ScopesOf(e, languages).value|
    else 0
  }

  function PredefinedCount(entries: seq<Entry>, languages: Value): nat
    decreases |entries|
  {
    if entries == [] then 0
    else PredefinedCount(entries[..|entries| - 1], languages) + PredefinedEntryCount(entries[|entries| - 1], languages)
  }

  function CustomCount(entries: seq<Entry>, languages: Value): nat
    requires forall e :: e in entries ==> e.Structured?
    decreases |entries|
  {
    if entries == [] then 0
    else CustomCount(entries[..|entries| - 1], languages) + CustomEntryCount(entries[|entries| - 1], languages)
  }

  /** A predefined entry that builds yields its count; with the instances
      carrying the scope's keyword arguments over the entry's fields. */
  lemma PredefinedEntryYield(e: Entry, languages: Value, library: Library)
    requires PredefinedEntryInstances(e, languages, library).Ok?
    ensures |PredefinedEntryInstances(e, languages, library).value| == PredefinedEntryCount(e, languages)
    ensures var rs := PredefinedEntryInstances(e, languages, library).value;
      rs != [] ==> (ScopesOf(e, languages).Ok? && LookupPredefined(e, library).Ok? &&
        forall i :: 0 <= i < |rs| ==>
          rs[i].kwargs == ConstructionKwargs(Items(e), PredefinedExcluded, ScopesOf(e, languages).value[i]) &&
          rs[i].ctor == Predefined(LookupPredefined(e, library).value.className))
  {
  }

  /** A custom entry that builds yields its count. */
  lemma CustomEntryYield(e: Entry, languages: Value)
    requires e.Structured? && CustomEntryContribution(e, languages).Ok?
    ensures |CustomEntryContribution(e, languages).value| == CustomEntryCount(e, languages)
  {
  }

  lemma {:induction false} PredefinedInstancesCount(entries: seq<Entry>, languages: Value, library: Library)
    requires PredefinedInstances(entries, languages, library).Ok?
    ensures |PredefinedInstances(entries, languages, library).value| == PredefinedCount(entries, languages)
    decreases |entries|
  {
    if entries != [] {
      PredefinedInstancesCount(entries[..|entries| - 1], languages, library);
      PredefinedEntryYield(entries[|entries| - 1], languages, library);
    }
  }

  lemma {:induction false} CustomInstancesCount(entries: seq<Entry>, languages: Value)
    requires forall e :: e in entries ==> e.Structured?
    requires CustomInstances(entries, languages).Ok?
    ensures |CustomInstances(entries, languages).value| == CustomCount(entries, languages)
    decreases |entries|
  {
    if entries != [] {
      assert forall e :: e in entries[..|entries| - 1] ==> e in entries;
      CustomInstancesCount(entries[..|entries| - 1], languages);
      CustomEntryYield(entries[|entries| - 1], languages);
    }
  }

  /** The registry holds, in all, the predefined entries' counts plus the
      custom entries' counts. */
  lemma RegistrySize(configuration: Configuration, library: Library)
    requires BuildRegistry(configuration, library).Ok?
    ensures var languages := ResolvedField(configuration, SupportedLanguagesKey);
      var split := SplitRecognizers(DecodeRecognizers(ResolvedField(configuration, RecognizersKey)).value);
      |BuildRegistry(configuration, library).value.recognizers|
        == PredefinedCount(split.0, languages) + CustomCount(split.1, languages)
  {
    var languages := ResolvedField(configuration, SupportedLanguagesKey);
    var split := SplitRecognizers(DecodeRecognizers(ResolvedField(configuration, RecognizersKey)).value);
    PredefinedInstancesCount(split.0, languages, library);
    CustomInstancesCount(split.1, languages);
  }

  // ---------------------------------------------------------------------
  // Per-entry laws

  /** A disabled entry contributes nothing, predefined or custom. */
  lemma DisabledEntryContributesNothing(e: Entry, languages: Value, library: Library)
    requires e.Structured? && EnabledKey in e.fields && !Truthy(e.fields[EnabledKey])
    ensures ScopesOf(e, languages).Ok? ==> PredefinedEntryInstances(e, languages, library) == Ok([])
    ensures CustomEntryContribution(e, languages) == Ok([])
  {
  }

  /** An enabled legacy custom entry with `supported_language` yields one
      pattern recognizer built from its full field set, whatever the
      registry's languages are. */
  lemma LegacyEntryYieldsOne(e: Entry, languages: Value)
    requires e.Structured? && SupportedLanguageKey in e.fields
    requires EnabledKey !in e.fields || Truthy(e.fields[EnabledKey])
    ensures CustomEntryContribution(e, languages) == Ok([Recognizer(FromDict, PatternBased, e.fields, None)])
  {
  }

  /** An enabled non-legacy custom entry yields one pattern recognizer per
      scope, built from its fields minus `enabled`, `type` and
      `supported_languages`, overlaid by the scope. */
  lemma CustomEntryOnePerScope(e: Entry, languages: Value)
    requires e.Structured? && SupportedLanguageKey !in e.fields
    requires EnabledKey !in e.fields || Truthy(e.fields[EnabledKey])
    requires ScopesOf(e, languages).Ok?
    ensures var scopes := ScopesOf(e, languages).value;
      var r := CustomEntryContribution(e, languages);
      r.Ok? && |r.value| == |scopes| &&
      forall i :: 0 <= i < |scopes| ==>
        r.value[i] == Recognizer(FromDict, PatternBased, ConstructionKwargs(e.fields, CustomExcluded, scopes[i]), None)
  {
  }

  /** A bare name that is not in the library makes the build raise as
      soon as the registry has a language: the `None` that `getattr`
      returns is called. */
  lemma UnknownPredefinedNameRaises(name: string, languages: Value, library: Library)
    requires name !in library && !ContainsSubstring(name, EnabledKey)
    requires Iterate(languages).Some? && Iterate(languages).value != []
    ensures PredefinedEntryInstances(BareName(name), languages, library) == Err(NotCallable(name))
  {
  }

  /** A bare name is built by the library class of that very name, once per
      registry language, with exactly its scope as keyword arguments: it has
      no fields of its own, and its context is None. */
  lemma BareNameInstances(name: string, languages: seq<Value>, library: Library)
    requires name in library && !ContainsSubstring(name, EnabledKey)
    ensures PredefinedEntryInstances(BareName(name), List(languages), library)
         == Ok(seq(|languages|, i requires 0 <= i < |languages| =>
                 Recognizer(Predefined(name), library[name], Scope(languages[i], Null), None)))
  {
    var e := BareName(name);
    var scopes := ScopesOf(e, List(languages)).value;
    var found := LibraryClass(name, library[name]);
    var want := seq(|languages|, i requires 0 <= i < |languages| =>
                  Recognizer(Predefined(name), library[name], Scope(languages[i], Null), None));
    var made := seq(|scopes|, i requires 0 <= i < |scopes| => PredefinedRecognizer(e, scopes[i], found));
    assert Iterate(List(languages)) == Some(languages) && ScopesOf(e, List(languages)).Ok?;
    assert IsEnabled(e) == Ok(true) && LookupPredefined(e, library) == Ok(found);
    if scopes == [] {
      assert made == [];
    }
    assert PredefinedEntryInstances(e, List(languages), library) == Ok(made);
    forall i | 0 <= i < |scopes|
      ensures made[i] == want[i]
    {
      var kwargs := ConstructionKwargs(Items(e), PredefinedExcluded, scopes[i]);
      assert kwargs.Keys == Scope(languages[i], Null).Keys;
      assert kwargs == Scope(languages[i], Null);
    }
    assert made == want;
  }

  /** A predefined mapping without `supported_languages` is built by the
      class its `name` field names, once per registry language; every
      instance receives the mapping's fields other than `enabled`, `type`,
      `supported_languages` and `name`, the language of its scope, and the
      mapping's `context` field, or None when it has none. */
  lemma StructuredPredefinedInstances(fields: map<string, Value>, name: string, languages: seq<Value>, library: Library)
    requires NameKey in fields && fields[NameKey] == Str(name) && name in library
    requires SupportedLanguagesKey !in fields
    requires EnabledKey !in fields || Truthy(fields[EnabledKey])
    ensures var context := if ContextKey in fields then fields[ContextKey] else Null;
      PredefinedEntryInstances(Structured(fields), List(languages), library)
        == Ok(seq(|languages|, i requires 0 <= i < |languages| =>
             Recognizer(Predefined(name), library[name],
                        (fields - PredefinedExcluded) + map[SupportedLanguageKey := languages[i], ContextKey := context],
                        None)))
  {
    var e := Structured(fields);
    var context := if ContextKey in fields then fields[ContextKey] else Null;
    var scopes := ScopesOf(e, List(languages)).value;
    var found := LibraryClass(name, library[name]);
    var want := seq(|languages|, i requires 0 <= i < |languages| =>
                  Recognizer(Predefined(name), library[name],
                             (fields - PredefinedExcluded) + map[SupportedLanguageKey := languages[i], ContextKey := context],
                             None));
    var made := seq(|scopes|, i requires 0 <= i < |scopes| => PredefinedRecognizer(e, scopes[i], found));
    assert Iterate(List(languages)) == Some(languages) && ScopesOf(e, List(languages)).Ok?;
    assert IsEnabled(e) == Ok(true) && LookupPredefined(e, library) == Ok(found);
    if scopes == [] {
      assert made == [];
    }
    assert PredefinedEntryInstances(e, List(languages), library) == Ok(made);
    forall i | 0 <= i < |scopes|
      ensures made[i] == want[i]
    {
      assert scopes[i] == map[SupportedLanguageKey := languages[i], ContextKey := context];
    }
    assert made == want;
  }

  // ---------------------------------------------------------------------
  // Every instance is bound to one language

  /** Every scope names its language. */
  lemma ScopesNameALanguage(e: Entry, languages: Value)
    requires ScopesOf(e, languages).Ok?
    ensures forall scope :: scope in ScopesOf(e, languages).value ==> SupportedLanguageKey in scope
  {
  }

  /** Every instance an entry yields is bound to a `supported_language`. */
  lemma EntryInstancesHaveALanguage(e: Entry, languages: Value, library: Library)
    requires PredefinedEntryInstances(e, languages, library).Ok?
    ensures forall r :: r in PredefinedEntryInstances(e, languages, library).value ==> SupportedLanguageKey in r.kwargs
  {
    if ScopesOf(e, languages).Ok? {
      ScopesNameALanguage(e, languages);
    }
  }

  lemma {:induction false} PredefinedInstancesHaveALanguage(entries: seq<Entry>, languages: Value, library: Library)
    requires PredefinedInstances(entries, languages, library).Ok?
    ensures forall r :: r in PredefinedInstances(entries, languages, library).value ==> SupportedLanguageKey in r.kwargs
    decreases |entries|
  {
    if entries != [] {
      PredefinedInstancesHaveALanguage(entries[..|entries| - 1], languages, library);
      EntryInstancesHaveALanguage(entries[|entries| - 1], languages, library);
    }
  }

  /** The same for a custom entry; a legacy entry is bound by its own
      `supported_language` field. */
  lemma ContributionHasALanguage(e: Entry, languages: Value)
    requires e.Structured? && CustomEntryContribution(e, languages).Ok?
    ensures forall r :: r in CustomEntryContribution(e, languages).value ==> SupportedLanguageKey in r.kwargs
  {
    if SupportedLanguageKey !in e.fields && ScopesOf(e, languages).Ok? {
      ScopesNameALanguage(e, languages);
    }
  }

  lemma {:induction false} CustomInstancesHaveALanguage(entries: seq<Entry>, languages: Value)
    requires forall e :: e in entries ==> e.Structured?
    requires CustomInstances(entries, languages).Ok?
    ensures forall r :: r in CustomInstances(entries, languages).value ==> SupportedLanguageKey in r.kwargs
    decreases |entries|
  {
    if entries != [] {
      var init, last := entries[..|entries| - 1], entries[|entries| - 1];
      assert forall e :: e in init ==> e in entries;
      CustomInstancesHaveALanguage(init, languages);
      ContributionHasALanguage(last, languages);
    }
  }

  /** Every detector in a registry is bound to exactly one resolved
      `supported_language`: its keyword arguments hold that key. */
  lemma EveryRecognizerHasALanguage(configuration: Configuration, library: Library)
    requires BuildRegistry(configuration, library).Ok?
    ensures forall r :: r in BuildRegistry(configuration, library).value.recognizers ==> SupportedLanguageKey in r.kwargs
  {
    BuildRegistryParts(configuration, library);
    var languages := ResolvedField(configuration, SupportedLanguagesKey);
    var split := SplitRecognizers(DecodeRecognizers(ResolvedField(configuration, RecognizersKey)).value);
    PredefinedInstancesHaveALanguage(split.0, languages, library);
    CustomInstancesHaveALanguage(split.1, languages);
    var all := PredefinedInstances(split.0, languages, library).value + CustomInstances(split.1, languages).value;
    var rs := BuildRegistry(configuration, library).value.recognizers;
    forall r | r in rs
      ensures SupportedLanguageKey in r.kwargs
    {
      var i :| 0 <= i < |rs| && rs[i] == r;
      assert rs[i].kwargs == all[i].kwargs && all[i] in all;
    }
  }

  // ---------------------------------------------------------------------
  // Registry-wide settings

  /** The registry receives the resolved languages and flags unchanged,
      and every pattern recognizer in it carries those flags. */
  lemma RegistryCarriesResolvedSettings(configuration: Configuration, library: Library)
    requires BuildRegistry(configuration, library).Ok?
    ensures var registry := BuildRegistry(configuration, library).value;
      && registry.supportedLanguages == ResolvedField(configuration, SupportedLanguagesKey)
      && registry.globalRegexFlags == ResolvedField(configuration, GlobalRegexFlagsKey)
      && forall r :: r in registry.recognizers && r.kind.PatternBased? ==>
           r.globalRegexFlags == Some(registry.globalRegexFlags)
  {
    var registry := BuildRegistry(configuration, library).value;
    forall r | r in registry.recognizers && r.kind.PatternBased?
      ensures r.globalRegexFlags == Some(registry.globalRegexFlags)
    {
      var i :| 0 <= i < |registry.recognizers| && registry.recognizers[i] == r;
    }
  }

  /** Each missing registry field independently takes its default; a
      present one is used as it is. */
  lemma MissingFieldsTakeDefaults(configuration: Configuration, library: Library)
    ensures SupportedLanguagesKey !in configuration ==>
      ResolvedField(configuration, SupportedLanguagesKey) == List([Str("en")])
    ensures RecognizersKey !in configuration ==> ResolvedField(configuration, RecognizersKey) == List([])
    ensures GlobalRegexFlagsKey !in configuration ==>
      ResolvedField(configuration, GlobalRegexFlagsKey) == Int(26)
    ensures forall k :: k in DefaultValues && k in configuration ==> ResolvedField(configuration, k) == configuration[k]
    ensures RecognizersKey !in configuration ==>
      BuildRegistry(configuration, library)
        == Ok(Registry([], ResolvedField(configuration, SupportedLanguagesKey), ResolvedField(configuration, GlobalRegexFlagsKey)))
  {
    if RecognizersKey !in configuration {
      assert DecodeRecognizers(List([])) == Some([]);
      assert SplitRecognizers([]) == ([], []);
    }
  }

  /** The fan-out law: a configuration holding one enabled custom entry
      without any language field yields exactly one pattern recognizer per
      registry language, in order, each with the entry's context and the
      resolved flags. */
  lemma UndeclaredLanguagesFanOut(configuration: Configuration, fields: map<string, Value>,
                                  languages: seq<Value>, library: Library)
    requires RecognizersKey in configuration && configuration[RecognizersKey] == List([Dict(fields)])
    requires ResolvedField(configuration, SupportedLanguagesKey) == List(languages)
    requires TypeKey !in fields || fields[TypeKey] == Str("custom")
    requires EnabledKey !in fields || Truthy(fields[EnabledKey])
    requires SupportedLanguageKey !in fields && SupportedLanguagesKey !in fields
    ensures BuildRegistry(configuration, library).Ok?
    ensures var rs := BuildRegistry(configuration, library).value.recognizers;
      && |rs| == |languages|
      && forall i :: 0 <= i < |rs| ==>
        && rs[i].ctor == FromDict
        && rs[i].kwargs == ConstructionKwargs(fields, CustomExcluded, Scope(languages[i], Context(Structured(fields))))
        && rs[i].globalRegexFlags == Some(ResolvedField(configuration, GlobalRegexFlagsKey))
  {
    var e := Structured(fields);
    var L := List(languages);
    var flags := ResolvedField(configuration, GlobalRegexFlagsKey);
    assert DecodeItems([Dict(fields)][1..]) == Some([]);
    assert DecodeItems([Dict(fields)]) == Some([e] + []);
    assert [e] + [] == [e];
    assert DecodeRecognizers(ResolvedField(configuration, RecognizersKey)) == Some([e]);
    assert SplitRecognizers([e]) == ([], [e]);
    CustomEntryOnePerScope(e, L);
    var made := CustomEntryContribution(e, L).value;
    assert CustomInstances([e], L) == Ok(made) by {
      assert [e][..0] == [];
      assert CustomInstances([e], L) == Then(Ok([]), CustomEntryContribution(e, L));
      assert [] + made == made;
    }
    assert PredefinedInstances([], L, library) == Ok([]);
    assert Then(Ok([]), Ok(made)) == Ok(made) by { assert [] + made == made; }
    assert BuildRegistry(configuration, library) == Ok(Registry(WithGlobalFlags(made, flags), L, flags));
  }

  /** A custom entry declaring plain language codes yields one pattern
      recognizer per code, in order, each with no context (the entry's own
      `context` field is overridden by the scope) and otherwise the entry's
      fields, its patterns among them. */
  lemma PlainLanguageListFanOut(fields: map<string, Value>, codes: seq<Value>, languages: Value)
    requires SupportedLanguagesKey in fields && fields[SupportedLanguagesKey] == List(codes)
    requires codes != [] && codes[0].Str?
    requires SupportedLanguageKey !in fields
    requires EnabledKey !in fields || Truthy(fields[EnabledKey])
    ensures var r := CustomEntryContribution(Structured(fields), languages);
      && r.Ok? && |r.value| == |codes|
      && forall i :: 0 <= i < |codes| ==>
        && r.value[i].kind.PatternBased?
        && r.value[i].kwargs[SupportedLanguageKey] == codes[i]
        && r.value[i].kwargs[ContextKey] == Null
        && forall k :: k in fields && k !in CustomExcluded && k != SupportedLanguageKey && k != ContextKey ==>
             k in r.value[i].kwargs && r.value[i].kwargs[k] == fields[k]
  {
    CustomEntryOnePerScope(Structured(fields), languages);
  }
}
