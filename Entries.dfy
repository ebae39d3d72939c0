/** Recognizer entries of a registry configuration and the pure helpers of
    the provider that read them: enabledness, name, context, items,
    language-scope expansion, the predefined/custom split and the keyword
    arguments a construction receives. */
module Entries {
  import opened Values

  const NameKey := "name"
  const TypeKey := "type"
  const EnabledKey := "enabled"
  const ContextKey := "context"
  const LanguageKey := "language"
  const SupportedLanguageKey := "supported_language"
  const SupportedLanguagesKey := "supported_languages"

  /** One element of the `recognizers` list: a bare recognizer name, or a
      mapping of fields. */
  datatype Entry = BareName(name: string) | Structured(fields: map<string, Value>)

  /** Why building the registry raised. */
  datatype BuildError =
    | MalformedEntry              // a KeyError, TypeError or IndexError on a recognizer entry
    | MalformedRecognizers        // the `recognizers` node cannot be iterated as entries
    | NotCallable(name: string)   // `getattr(..., name, None)` gave None, which is then called

  /** The document node an entry was read from. */
  function EntryValue(e: Entry): Value {
    match e
    case BareName(n) => Str(n)
    case Structured(f) => Dict(f)
  }

  /** Reads the items of the `recognizers` list as entries; None when some
      item is neither a string nor a mapping. */
  function DecodeItems(items: seq<Value>): (r: Option<seq<Entry>>)
    ensures r.Some? <==> forall i :: 0 <= i < |items| ==> items[i].Str? || items[i].Dict?
    ensures r.Some? ==> |r.value| == |items|
    ensures r.Some? ==> forall i :: 0 <= i < |items| ==> EntryValue(r.value[i]) == items[i]
  {
    if items == [] then Some([])
    else
      var head := match items[0]
        case Str(n) => Some(BareName(n))
        case Dict(f) => Some(Structured(f))
        case _ => None;
      match (head, DecodeItems(items[1..]))
      case (Some(e), Some(rest)) => Some([e] + rest)
      case _ => None
  }

  /** `_is_recognizer_enabled`: `"enabled" not in r or r["enabled"]`. A
      mapping is enabled unless its `enabled` field is falsy. On a bare name
      `in` is a substring test, and a name containing "enabled" then fails
      when the string is indexed by a string. */
  function IsEnabled(e: Entry): (r: Result<bool, BuildError>)
    ensures r.Err? <==> e.BareName? && ContainsSubstring(e.name, EnabledKey)
    ensures e.BareName? && r.Ok? ==> r.value
    ensures e.Structured? ==> (r == Ok(false) <==> EnabledKey in e.fields && !Truthy(e.fields[EnabledKey]))
  {
    match e
    case BareName(n) => if ContainsSubstring(n, EnabledKey) then Err(MalformedEntry) else Ok(true)
    case Structured(f) => Ok(EnabledKey !in f || Truthy(f[EnabledKey]))
  }

  /** `_get_recognizer_name`: the bare name itself, or the `name` field
      (None when that field is missing: `recognizer["name"]` raises). */
  function Name(e: Entry): (r: Option<Value>)
    ensures e.BareName? ==> r == Some(Str(e.name))
    ensures e.Structured? ==> (r.Some? <==> NameKey in e.fields)
    ensures e.Structured? && r.Some? ==> r.value == e.fields[NameKey]
  {
    match e
    case BareName(n) => Some(Str(n))
    case Structured(f) => if NameKey in f then Some(f[NameKey]) else None
  }

  /** `_get_recognizer_context`: None for a bare name, else the `context`
      field or None. */
  function Context(e: Entry): (r: Value)
    ensures e.BareName? ==> r == Null
    ensures e.Structured? ==> r == (if ContextKey in e.fields then e.fields[ContextKey] else Null)
  {
    match e
    case BareName(_) => Null
    case Structured(f) => if ContextKey in f then f[ContextKey] else Null
  }

  /** `_get_recognizer_items`: no fields for a bare name, all fields of a
      mapping. */
  function Items(e: Entry): (r: map<string, Value>)
    ensures e.BareName? ==> r == map[]
    ensures e.Structured? ==> r == e.fields
  {
    match e
    case BareName(_) => map[]
    case Structured(f) => f
  }

  /** A language scope: the two keyword arguments one instance is bound by. */
  function Scope(language: Value, context: Value): (r: Configuration)
    ensures r.Keys == {SupportedLanguageKey, ContextKey}
    ensures r[SupportedLanguageKey] == language && r[ContextKey] == context
  {
    map[SupportedLanguageKey := language, ContextKey := context]
  }

  /** An element of the `{language, context}` form of `supported_languages`. */
  predicate IsLanguageContextPair(v: Value) {
    v.Dict? && LanguageKey in v.fields && ContextKey in v.fields
  }

  /** Whether an entry is expanded over the registry-wide languages. */
  predicate UsesRegistryLanguages(e: Entry) {
    e.BareName? || SupportedLanguagesKey !in e.fields
  }

  /** `_get_recognizer_languages`: the scopes one entry is instantiated
      for, given the registry-wide `supported_languages` node. The shape of
      the first declared element decides the form of the whole list. */
  function ScopesOf(e: Entry, registryLanguages: Value): (r: Result<seq<Configuration>, BuildError>)
    // a bare name, or no `supported_languages`: one scope per registry language, with the entry's context
    ensures UsesRegistryLanguages(e) ==> (r.Ok? <==> Iterate(registryLanguages).Some?)
    ensures UsesRegistryLanguages(e) && r.Ok? ==>
      var langs := Iterate(registryLanguages).value;
      |r.value| == |langs| &&
      forall i :: 0 <= i < |langs| ==> r.value[i] == Scope(langs[i], Context(e))
    // a declared list: an empty or non-iterable one raises
    ensures !UsesRegistryLanguages(e) ==>
      var declared := Iterate(e.fields[SupportedLanguagesKey]);
      (declared.None? || declared.value == []) ==> r.Err?
    // a list of plain codes: one scope per code, without context
    ensures !UsesRegistryLanguages(e) ==>
      var declared := Iterate(e.fields[SupportedLanguagesKey]);
      declared.Some? && declared.value != [] && declared.value[0].Str? ==>
        r.Ok? && |r.value| == |declared.value| &&
        forall i :: 0 <= i < |declared.value| ==> r.value[i] == Scope(declared.value[i], Null)
    // a list of {language, context} mappings: one scope per mapping, keeping its own context
    ensures !UsesRegistryLanguages(e) ==>
      var declared := Iterate(e.fields[SupportedLanguagesKey]);
      declared.Some? && declared.value != [] && !declared.value[0].Str? ==>
        (r.Ok? <==> forall i :: 0 <= i < |declared.value| ==> IsLanguageContextPair(declared.value[i])) &&
        (r.Ok? ==> (|r.value| == |declared.value| &&
          forall i :: 0 <= i < |declared.value| ==>
            r.value[i] == Scope(declared.value[i].fields[LanguageKey], declared.value[i].fields[ContextKey])))
  {
    if UsesRegistryLanguages(e) then
      match Iterate(registryLanguages)
      case None => Err(MalformedEntry)
      case Some(langs) =>
        Ok(seq(|langs|, i requires 0 <= i < |langs| => Scope(langs[i], Context(e))))
    else
      match Iterate(e.fields[SupportedLanguagesKey])
      case None => Err(MalformedEntry)
      case Some(declared) =>
        if declared == [] then Err(MalformedEntry)
        else if declared[0].Str? then
          Ok(seq(|declared|, i requires 0 <= i < |declared| => Scope(declared[i], Null)))
        else if forall i :: 0 <= i < |declared| ==> IsLanguageContextPair(declared[i]) then
          Ok(seq(|declared|, i requires 0 <= i < |declared| && IsLanguageContextPair(declared[i]) =>
            Scope(declared[i].fields[LanguageKey], declared[i].fields[ContextKey])))
        else Err(MalformedEntry)
  }

  /** The entries of `s` that satisfy `p`, in their order in `s`. */
  function Filter(s: seq<Entry>, p: Entry -> bool): (r: seq<Entry>)
    ensures |r| <= |s|
    ensures forall x :: x in r <==> x in s && p(x)
  {
    if s == [] then []
    else (if p(s[0]) then [s[0]] else []) + Filter(s[1..], p)
  }

  /** Filtering distributes over concatenation: it keeps relative order. */
  lemma {:induction false} FilterConcat(a: seq<Entry>, b: seq<Entry>, p: Entry -> bool)
    ensures Filter(a + b, p) == Filter(a, p) + Filter(b, p)
  {
    if a == [] {
      assert a + b == b;
    } else {
      assert (a + b)[0] == a[0];
      assert (a + b)[1..] == a[1..] + b;
      FilterConcat(a[1..], b, p);
    }
  }

  /** Bare names and entries of type "predefined". */
  predicate IsPredefinedEntry(e: Entry) {
    e.BareName? || (TypeKey in e.fields && e.fields[TypeKey] == Str("predefined"))
  }

  /** Mappings with no type or of type "custom". */
  predicate IsCustomEntry(e: Entry) {
    e.Structured? && (TypeKey !in e.fields || e.fields[TypeKey] == Str("custom"))
  }

  /** `_split_recognizers`: the predefined and the custom entries, each in
      declaration order. */
  function SplitRecognizers(entries: seq<Entry>): (r: (seq<Entry>, seq<Entry>))
    ensures forall e :: e in r.0 <==> e in entries && IsPredefinedEntry(e)
    ensures forall e :: e in r.1 <==> e in entries && IsCustomEntry(e)
    ensures forall e :: !(e in r.0 && e in r.1)
    ensures forall e :: e in entries && !IsPredefinedEntry(e) && !IsCustomEntry(e) ==> e !in r.0 && e !in r.1
    ensures forall e :: e in r.1 ==> e.Structured?
  {
    (Filter(entries, IsPredefinedEntry), Filter(entries, IsCustomEntry))
  }

  /** The split of a concatenation is the concatenation of the splits:
      each group keeps declaration order. */
  lemma {:induction false} SplitPreservesOrder(a: seq<Entry>, b: seq<Entry>)
    ensures SplitRecognizers(a + b).0 == SplitRecognizers(a).0 + SplitRecognizers(b).0
    ensures SplitRecognizers(a + b).1 == SplitRecognizers(a).1 + SplitRecognizers(b).1
  {
    FilterConcat(a, b, IsPredefinedEntry);
    FilterConcat(a, b, IsCustomEntry);
  }

  /** No entry is counted in both groups, so together they are no longer
      than the input. */
  lemma {:induction false} SplitNeverDuplicates(entries: seq<Entry>)
    ensures |SplitRecognizers(entries).0| + |SplitRecognizers(entries).1| <= |entries|
  {
    if entries != [] {
      SplitNeverDuplicates(entries[1..]);
    }
  }

  /** Keys the predefined construction does not receive. */
  const PredefinedExcluded: set<string> := {EnabledKey, TypeKey, SupportedLanguagesKey, NameKey}

  /** Keys the custom construction does not receive. */
  const CustomExcluded: set<string> := {EnabledKey, TypeKey, SupportedLanguagesKey}

  /** `{**{k: v for k, v in fields if k not in excluded}, **scope}`: the
      entry's fields minus the excluded keys, overlaid by the scope. */
  function ConstructionKwargs(fields: map<string, Value>, excluded: set<string>, scope: Configuration): (r: Configuration)
    ensures r.Keys == (fields.Keys - excluded) + scope.Keys
    ensures forall k :: k in scope ==> r[k] == scope[k]
    ensures forall k :: k in fields && k !in excluded && k !in scope ==> r[k] == fields[k]
  {
    (fields - excluded) + scope
  }
}
