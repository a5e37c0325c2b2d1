/**
  The JSON-file-backed string localizer (namespace weapploc.Services).

  A resource file is one flat JSON object per culture, read as the list of its
  properties in document order: the property name and its value, where `None`
  is a JSON `null`. The distributed cache is a map from cache keys to strings.
*/
module Services {
  import opened Wrappers

  /** One property of a flat JSON resource document. */
  type Property = (string, Option<string>)

  /** A resource document: its properties in document order. */
  type Document = seq<Property>

  /** Microsoft.Extensions.Localization.LocalizedString. */
  datatype LocalizedString = LocalizedString(name: string, value: string, resourceNotFound: bool)

  /** Why enumerating all strings stops early. */
  datatype Failure =
    | FileNotFound(path: string)   // FileStream on a missing file
    | NullValue(name: string)      // LocalizedString refuses a null value

  /** What `GetAllStrings` yields before it finishes or throws. */
  datatype Enumeration = Enumeration(items: seq<LocalizedString>, failure: Option<Failure>)

  /** The result of one `GetString` call: the culture afterwards, the cache afterwards and the value. */
  datatype Outcome = Outcome(culture: string, cache: map<string, string>, value: Option<string>)

  /** The relative path of the resource file of a culture. */
  function FilePath(culture: string): (r: string)
    ensures r != "" && |r| == |culture| + 22
  {
    "Resources/MyFile." + culture + ".json"
  }

  /** The key under which a looked-up string is cached. */
  function CacheKey(culture: string, key: string): (r: string)
    ensures |r| == |culture| + |key| + 8
  {
    "locale_" + culture + "_" + key
  }

  /** The index of the first property whose name is exactly `name`. */
  function FirstMatch(doc: Document, name: string): (r: Option<nat>)
    ensures r.Some? ==> r.value < |doc| && doc[r.value].0 == name
    ensures r.Some? ==> forall j :: 0 <= j < r.value ==> doc[j].0 != name
    ensures r.None? ==> forall j :: 0 <= j < |doc| ==> doc[j].0 != name
  {
    if doc == [] then None
    else if doc[0].0 == name then Some(0)
    else match FirstMatch(doc[1..], name)
      case None => None
      case Some(k) => Some(k + 1)
  }

  /** The value of the first property named `name`; `None` when there is none or it is null. */
  function ValueOf(doc: Document, name: string): (r: Option<string>)
    ensures r.Some? ==> exists i :: 0 <= i < |doc| && doc[i].0 == name && doc[i].1 == r
    ensures (forall j :: 0 <= j < |doc| ==> doc[j].0 != name) ==> r == None
  {
    match FirstMatch(doc, name)
    case None => None
    case Some(i) => doc[i].1
  }

  /** What scanning a document at a path for a property yields: nothing for an empty name or path. */
  function Scan(doc: Document, name: string, path: string): (r: Option<string>)
    ensures name == "" || path == "" ==> r == None
    ensures r.Some? ==> name != "" && exists i :: 0 <= i < |doc| && doc[i].0 == name && doc[i].1 == r
  {
    if name == "" || path == "" then None else ValueOf(doc, name)
  }

  /** The culture `GetString` reads from, after falling back to the default. */
  function EffectiveCulture(current: string, default: string, files: map<string, Document>): (r: string)
    ensures r == current || r == default
    ensures r in files <==> (current in files || default in files)
  {
    if current in files then current else default
  }

  /** A cache entry is a hit only when it is present and non-empty. */
  predicate IsHit(cache: map<string, string>, ck: string)
  {
    ck in cache && cache[ck] != ""
  }

  /** The whole effect of one `GetString(key)` call on (culture, cache) and its result. */
  function Lookup(current: string, default: string, cache: map<string, string>,
                  files: map<string, Document>, key: string): (r: Outcome)
    ensures r.culture == current || r.culture == default
    ensures r.culture !in files ==> r.value == None && r.cache == cache
    ensures cache.Keys <= r.cache.Keys
    ensures r.value.Some? && r.value.value != "" ==> IsHit(r.cache, CacheKey(r.culture, key))
  {
    var culture := EffectiveCulture(current, default, files);
    if culture !in files then Outcome(culture, cache, None)
    else
      var ck := CacheKey(culture, key);
      if IsHit(cache, ck) then Outcome(culture, cache, Some(cache[ck]))
      else
        var result := Scan(files[culture], key, FilePath(culture));
        if result.Some? && result.value != "" then Outcome(culture, cache[ck := result.value], result)
        else Outcome(culture, cache, result)
  }

  /** The indexer `this[name]`: the key itself stands in for a missing string. */
  function ToLocalized(name: string, value: Option<string>): (s: LocalizedString)
    ensures s.name == name
    ensures s.resourceNotFound <==> value.None?
    ensures value.Some? ==> s.value == value.value
    ensures value.None? ==> s.value == name
  {
    LocalizedString(name, if value.Some? then value.value else name, value.None?)
  }

  /** The indexer `this[name, arguments]` applied to the plain lookup: only a found string is formatted. */
  function FormatFound(found: LocalizedString, fmt: (string, seq<string>) -> string,
                       arguments: seq<string>): (s: LocalizedString)
    ensures found.resourceNotFound ==> s == found
    ensures !found.resourceNotFound ==> s.name == found.name && !s.resourceNotFound
    ensures !found.resourceNotFound ==> s.value == fmt(found.value, arguments)
  {
    if !found.resourceNotFound then LocalizedString(found.name, fmt(found.value, arguments), false)
    else found
  }

  class JsonStringLocalizer {
    /** Thread.CurrentThread.CurrentCulture.Name. */
    var currentCulture: string
    /** The IDistributedCache, as a map from cache key to string. */
    var cache: map<string, string>
    /** The resource files that exist, by culture name. */
    const files: map<string, Document>
    /** CultureInfoSettings.DefaultCulture. */
    const defaultCulture: string

    constructor (culture: string, initialCache: map<string, string>,
                 resources: map<string, Document>, settingsDefault: string)
      ensures currentCulture == culture && cache == initialCache
      ensures files == resources && defaultCulture == settingsDefault
    {
      currentCulture := culture;
      cache := initialCache;
      files := resources;
      defaultCulture := settingsDefault;
    }

    /** Scans `doc`, the content of the file at `filePath`, for the first property named `propertyName`. */
    method GetValueFromJson(propertyName: string, filePath: string, doc: Document) returns (r: Option<string>)
      ensures propertyName == "" || filePath == "" ==> r == None
      ensures propertyName != "" && filePath != "" ==>
        (r.Some? ==> exists i :: 0 <= i < |doc| && doc[i].0 == propertyName && doc[i].1 == r
                       && forall j :: 0 <= j < i ==> doc[j].0 != propertyName)
      ensures r == Scan(doc, propertyName, filePath)
    {
      if propertyName == "" { return None; }
      if filePath == "" { return None; }
      var i := 0;
      while i < |doc|
        invariant 0 <= i <= |doc|
        invariant forall j :: 0 <= j < i ==> doc[j].0 != propertyName
      {
        if doc[i].0 == propertyName {
          assert FirstMatch(doc, propertyName) == Some(i);
          return doc[i].1;
        }
        i := i + 1;
      }
      return None;
    }

    /** GetString: falls back to the default culture, then consults the cache, then the file. */
    method GetString(key: string) returns (r: Option<string>)
      modifies this
      ensures currentCulture == EffectiveCulture(old(currentCulture), defaultCulture, files)
      ensures currentCulture !in files ==> r == None && cache == old(cache)
      ensures currentCulture in files && IsHit(old(cache), CacheKey(currentCulture, key)) ==>
        r == Some(old(cache)[CacheKey(currentCulture, key)]) && cache == old(cache)
      ensures currentCulture in files && !IsHit(old(cache), CacheKey(currentCulture, key)) ==>
        r == Scan(files[currentCulture], key, FilePath(currentCulture)) &&
        cache == (if r.Some? && r.value != "" then old(cache)[CacheKey(currentCulture, key) := r.value]
                  else old(cache))
      ensures Outcome(currentCulture, cache, r) == Lookup(old(currentCulture), defaultCulture, old(cache), files, key)
    {
      var relativeFilePath := FilePath(currentCulture);
      if currentCulture !in files {
        currentCulture := defaultCulture;
        relativeFilePath := FilePath(currentCulture);
        if currentCulture !in files { return None; }
      }
      var cacheKey := CacheKey(currentCulture, key);
      var cacheValue := if cacheKey in cache then Some(cache[cacheKey]) else None;
      if cacheValue.Some? && cacheValue.value != "" { return cacheValue; }
      r := GetValueFromJson(key, relativeFilePath, files[currentCulture]);
      if r.Some? && r.value != "" { cache := cache[cacheKey := r.value]; }
    }

    /** The indexer `this[name]`. */
    method Item(name: string) returns (s: LocalizedString)
      modifies this
      ensures var o := Lookup(old(currentCulture), defaultCulture, old(cache), files, name);
        currentCulture == o.culture && cache == o.cache &&
        s.name == name && (s.resourceNotFound <==> o.value.None?) &&
        s.value == (if o.value.Some? then o.value.value else name)
    {
      var value := GetString(name);
      s := ToLocalized(name, value);
    }

    /** The indexer `this[name, arguments]`, with `string.Format` as `fmt`. */
    method ItemFormatted(name: string, arguments: seq<string>, fmt: (string, seq<string>) -> string)
      returns (s: LocalizedString)
      modifies this
      ensures var o := Lookup(old(currentCulture), defaultCulture, old(cache), files, name);
        currentCulture == o.culture && cache == o.cache &&
        (o.value.None? ==> s == LocalizedString(name, name, true)) &&
        (o.value.Some? ==> s == LocalizedString(name, fmt(o.value.value, arguments), false))
    {
      var actualValue := Item(name);
      s := FormatFound(actualValue, fmt, arguments);
    }

    /** GetAllStrings: every property of the current culture's file, in document order, no fallback. */
    method GetAllStrings(includeParentCultures: bool) returns (e: Enumeration)
      ensures currentCulture !in files ==> e == Enumeration([], Some(FileNotFound(FilePath(currentCulture))))
      ensures currentCulture in files ==>
        var doc := files[currentCulture];
        |e.items| <= |doc| &&
        (forall k :: 0 <= k < |e.items| ==>
           doc[k].1.Some? && e.items[k] == LocalizedString(doc[k].0, doc[k].1.value, false)) &&
        (e.failure.None? ==> |e.items| == |doc|) &&
        (e.failure.Some? ==> |e.items| < |doc| && doc[|e.items|].1.None? &&
                             e.failure == Some(NullValue(doc[|e.items|].0)))
    {
      var filePath := FilePath(currentCulture);
      if currentCulture !in files { return Enumeration([], Some(FileNotFound(filePath))); }
      var doc := files[currentCulture];
      var items: seq<LocalizedString> := [];
      var i := 0;
      while i < |doc|
        invariant 0 <= i <= |doc| && |items| == i
        invariant forall k :: 0 <= k < i ==>
          doc[k].1.Some? && items[k] == LocalizedString(doc[k].0, doc[k].1.value, false)
      {
        var (key, value) := doc[i];
        if value.None? { return Enumeration(items, Some(NullValue(key))); }
        items := items + [LocalizedString(key, value.value, false)];
        i := i + 1;
      }
      return Enumeration(items, None);
    }
  }
}
