/** Properties of the localizer's lookup, stated over the functions that specify its methods. */
module ServicesProperties {
  import opened Wrappers
  import opened Services

  /** No culture that has a resource file has `_` in its name (true of BCP 47 tags, which use `-`). */
  ghost predicate NoUnderscoreCultures(files: map<string, Document>)
  {
    forall c :: c in files ==> '_' !in c
  }

  /** Every non-empty cache entry for a culture with a file holds what a scan of that file yields. */
  ghost predicate CacheCoherent(cache: map<string, string>, files: map<string, Document>)
  {
    forall c, k :: c in files && IsHit(cache, CacheKey(c, k)) ==>
      Scan(files[c], k, FilePath(c)) == Some(cache[CacheKey(c, k)])
  }

  /** Distinct cultures have distinct resource paths, so files may be keyed by culture name. */
  lemma FilePathInjective(c1: string, c2: string)
    ensures FilePath(c1) == FilePath(c2) <==> c1 == c2
  {
    if FilePath(c1) == FilePath(c2) {
      var pre := "Resources/MyFile.";
      assert |c1| == |c2|;
      assert c1 == FilePath(c1)[|pre|..|pre| + |c1|];
      assert c2 == FilePath(c2)[|pre|..|pre| + |c2|];
    }
  }

  /** The cache key determines culture and key as long as the culture name has no `_`. */
  lemma CacheKeyInjective(c1: string, k1: string, c2: string, k2: string)
    requires '_' !in c1 && '_' !in c2
    requires CacheKey(c1, k1) == CacheKey(c2, k2)
    ensures c1 == c2 && k1 == k2
  {
    var s := CacheKey(c1, k1);
    var pre := "locale_";
    assert s == CacheKey(c2, k2);
    assert s[|pre| + |c1|] == '_';
    assert s[|pre| + |c2|] == '_';
    assert |c1| == |c2|;
    assert c1 == s[|pre|..|pre| + |c1|];
    assert c2 == s[|pre|..|pre| + |c2|];
    assert k1 == s[|pre| + |c1| + 1..];
    assert k2 == s[|pre| + |c2| + 1..];
  }

  /** With `_` in a culture name, as in the alternate-sort name "es-ES_tradnl", two different lookups share one cache entry. */
  lemma CacheKeyCollision()
    ensures CacheKey("es-ES_tradnl", "k") == CacheKey("es-ES", "tradnl_k")
  {
  }

  /** The scan returns the value of the first property with the name, whatever follows it. */
  lemma FirstMatchWins(doc: Document, name: string, i: nat)
    requires i < |doc| && doc[i].0 == name
    requires forall j :: 0 <= j < i ==> doc[j].0 != name
    ensures ValueOf(doc, name) == doc[i].1
  {
    assert FirstMatch(doc, name).Some?;
  }

  /** Later duplicates of a property are never seen: appending properties leaves a found value alone. */
  lemma LaterDuplicatesIgnored(doc: Document, more: Document, name: string)
    requires FirstMatch(doc, name).Some?
    ensures ValueOf(doc + more, name) == ValueOf(doc, name)
  {
    var i := FirstMatch(doc, name).value;
    assert (doc + more)[i] == doc[i];
    forall j | 0 <= j < i ensures (doc + more)[j].0 != name {
      assert (doc + more)[j] == doc[j];
    }
    FirstMatchWins(doc + more, name, i);
  }

  /** A name that heads no property yields nothing; comparison is exact, so case matters. */
  lemma AbsentNameYieldsNothing(doc: Document, name: string)
    requires forall j :: 0 <= j < |doc| ==> doc[j].0 != name
    ensures ValueOf(doc, name) == None
  {
  }

  /** Writing a value at a cache key makes it a hit exactly when the value is non-empty. */
  lemma HitAfterWrite(cache: map<string, string>, ck: string, v: string)
    ensures IsHit(cache[ck := v], ck) <==> v != ""
  {
  }

  /** The fallback: a culture without a file is replaced by the default, and the change is kept. */
  lemma FallbackPersists(current: string, default: string, cache: map<string, string>,
                         files: map<string, Document>, key: string)
    requires current !in files
    ensures Lookup(current, default, cache, files, key).culture == default
    ensures default !in files ==> Lookup(current, default, cache, files, key) == Outcome(default, cache, None)
  {
  }

  /** A culture with a file is kept as it is. */
  lemma CultureWithFileKept(current: string, default: string, cache: map<string, string>,
                            files: map<string, Document>, key: string)
    requires current in files
    ensures Lookup(current, default, cache, files, key).culture == current
  {
  }

  /** A non-empty cache entry is returned without reading the file: file contents do not matter. */
  lemma CacheHitIgnoresFile(current: string, default: string, cache: map<string, string>,
                            files: map<string, Document>, other: map<string, Document>, key: string)
    requires files.Keys == other.Keys
    requires IsHit(cache, CacheKey(EffectiveCulture(current, default, files), key))
    ensures EffectiveCulture(current, default, files) in files ==>
      Lookup(current, default, cache, files, key) == Lookup(current, default, cache, other, key)
    ensures EffectiveCulture(current, default, files) in files ==>
      Lookup(current, default, cache, files, key).value
        == Some(cache[CacheKey(EffectiveCulture(current, default, files), key)])
  {
  }

  /** The cache is written at most once, at the key built from the culture after fallback,
      and only with a non-empty value that is also the result. */
  lemma CacheWriteOnlyNonEmpty(current: string, default: string, cache: map<string, string>,
                               files: map<string, Document>, key: string)
    ensures var o := Lookup(current, default, cache, files, key);
      o.cache == cache ||
      (o.value.Some? && o.value.value != "" && o.cache == cache[CacheKey(o.culture, key) := o.value.value])
    ensures var o := Lookup(current, default, cache, files, key);
      (o.value.None? || o.value == Some("")) ==> o.cache == cache
  {
  }

  /** A second lookup of the same key returns what the first returned and changes nothing more. */
  lemma LookupIdempotent(current: string, default: string, cache: map<string, string>,
                         files: map<string, Document>, key: string)
    ensures var o := Lookup(current, default, cache, files, key);
      Lookup(o.culture, default, o.cache, files, key) == o
  {
  }

  /** An empty key with no cached entry finds nothing and leaves the cache alone. */
  lemma EmptyKeyNotFound(current: string, default: string, cache: map<string, string>,
                         files: map<string, Document>)
    requires !IsHit(cache, CacheKey(EffectiveCulture(current, default, files), ""))
    ensures Lookup(current, default, cache, files, "").value == None
    ensures Lookup(current, default, cache, files, "").cache == cache
  {
  }

  /** The cache is only an optimisation: while it is coherent with the files, a lookup returns
      what a direct scan of the effective culture's file returns, and the cache stays coherent. */
  lemma LookupAgreesWithFiles(current: string, default: string, cache: map<string, string>,
                              files: map<string, Document>, key: string)
    requires NoUnderscoreCultures(files)
    requires CacheCoherent(cache, files)
    ensures var o := Lookup(current, default, cache, files, key);
      o.value == (if o.culture in files then Scan(files[o.culture], key, FilePath(o.culture)) else None)
    ensures CacheCoherent(Lookup(current, default, cache, files, key).cache, files)
  {
    var o := Lookup(current, default, cache, files, key);
    var c0 := o.culture;
    if c0 in files && o.cache != cache {
      var ck0 := CacheKey(c0, key);
      assert o.cache == cache[ck0 := o.value.value];
      forall c, k | c in files && IsHit(o.cache, CacheKey(c, k))
        ensures Scan(files[c], k, FilePath(c)) == Some(o.cache[CacheKey(c, k)])
      {
        if CacheKey(c, k) == ck0 {
          CacheKeyInjective(c, k, c0, key);
        }
      }
    }
  }

  /** A missing string reads as the key itself, flagged not found, formatted or not. */
  lemma NotFoundIsKey(name: string, fmt: (string, seq<string>) -> string, arguments: seq<string>)
    ensures ToLocalized(name, None) == LocalizedString(name, name, true)
    ensures FormatFound(ToLocalized(name, None), fmt, arguments) == LocalizedString(name, name, true)
  {
  }

  /** An empty string that is found is not "not found": only null is. */
  lemma EmptyStringIsFound(name: string)
    ensures ToLocalized(name, Some("")) == LocalizedString(name, "", false)
  {
  }

  /** A file `{"greeting": "Hello"}`: "greeting" is found, "missing" is not. */
  lemma GreetingExample(cache: map<string, string>)
    requires CacheKey("en-US", "greeting") !in cache && CacheKey("en-US", "missing") !in cache
    ensures var files := map["en-US" := [("greeting", Some("Hello"))]];
      var o := Lookup("en-US", "en-US", cache, files, "greeting");
      ToLocalized("greeting", o.value) == LocalizedString("greeting", "Hello", false) &&
      o.cache == cache[CacheKey("en-US", "greeting") := "Hello"]
    ensures var files := map["en-US" := [("greeting", Some("Hello"))]];
      ToLocalized("missing", Lookup("en-US", "en-US", cache, files, "missing").value)
        == LocalizedString("missing", "missing", true)
  {
    var doc: Document := [("greeting", Some("Hello"))];
    FirstMatchWins(doc, "greeting", 0);
    AbsentNameYieldsNothing(doc, "missing");
  }

  /** A culture without a file reads the default culture's file transparently. */
  lemma FallbackExample()
    ensures var files := map["en-US" := [("greeting", Some("Hello"))]];
      Lookup("fr-FR", "en-US", map[], files, "greeting")
        == Outcome("en-US", map[CacheKey("en-US", "greeting") := "Hello"], Some("Hello"))
  {
    FirstMatchWins([("greeting", Some("Hello"))], "greeting", 0);
  }
}
