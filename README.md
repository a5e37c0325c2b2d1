# Request localization: a Dafny model

This project models the two pieces of logic in a small ASP.NET web application
that localizes its pages from JSON files:

- **`Services.JsonStringLocalizer`** — an `IStringLocalizer` that resolves a key
  for the thread's current culture. It falls back to the configured default
  culture when the current culture has no resource file, and that switch
  persists. It then consults a distributed cache under the key
  `"locale_" + culture + "_" + key`. On a miss it scans the culture's
  `Resources/MyFile.<culture>.json` for the first property of that name. It
  caches non-empty results only. The indexer `this[name]` returns the key
  itself, flagged not found, for a missing string. The formatted indexer
  formats found strings only. `GetAllStrings` enumerates the current culture's
  file in document order, with no fallback.
- **`Middleware.LocalizationMiddleware`** — reads the Accept-Language header
  (section 12.5.4 of RFC 9110) literally. When the header has a comma it keeps
  the text before the first comma, and a two-letter entry `c` becomes
  `c + "-" + upper(c)`. A header without a comma is used verbatim, so `"de"`
  stays `"de"`. A non-empty key that equals a known culture name, compared
  ignoring case, sets both CurrentCulture and CurrentUICulture. The next stage
  always runs exactly once.

State that the source changes in place is modelled as classes:

- `JsonStringLocalizer` has fields `currentCulture` and `cache`. It also has
  the constants `files`, the resource files that exist, keyed by culture, and
  `defaultCulture`.
- `RequestContext` holds the thread's two cultures and a count of how often
  the next stage ran.

Every method is proved against pure functions. `Lookup` gives the whole
effect of `GetString`. `FirstMatch` and `ValueOf` specify the scan and
`CultureKey` the header normalisation. The modules `ServicesProperties` and
`MiddlewareProperties` prove the promised properties about those functions.

A resource file is a flat list of `(property name, value)` pairs in document
order, where a `None` value is JSON `null`. File existence is membership in
`files`. `string.Format` is the function parameter `fmt`. The known-culture
universe (`CultureInfo.GetCultures`) is the sequence `cultures` given to the
middleware's constructor.

The cache key is not injective: culture `"es-ES_tradnl"` with key `"k"` and
culture `"es-ES"` with key `"tradnl_k"` share one entry (`CacheKeyCollision`).
BCP 47 tags use `-`, but .NET alternate-sort culture names such as
`es-ES_tradnl` and `de-DE_phoneb` contain `_`, so the collision can happen.
`LookupAgreesWithFiles` therefore assumes explicitly (`NoUnderscoreCultures`)
that no culture with a resource file has `_` in its name. Under that
assumption it proves the cache is a pure optimisation: while every cached
entry agrees with its file, a lookup returns what a direct scan returns, and
the cache stays in agreement.

The two-letter expansion sits inside the comma branch, so a bare two-letter
header is not expanded (Middleware/LocalizationMiddleware.cs:11-18). A
resource document may hold duplicate keys, and then the first one wins
(Services/JsonStringLocalizer.cs:81-88).

`GetAllStrings` yields `LocalizedString(key, value, false)` for every
property. The `LocalizedString` constructor of Microsoft.Extensions.Localization
throws `ArgumentNullException` for a null value. So the model's enumeration
stops at the first null value and reports it as `NullValue`, and a missing
file is `FileNotFound`.

## Model

| member | source | states |
|---|---|---|
| Services.FilePath | Services/JsonStringLocalizer.cs:53 | the resource path of a culture is never empty, so the empty-path guard of the scan never fires on this path |
| Services.CacheKey | Services/JsonStringLocalizer.cs:65 | the cache key is the culture and the key plus eight fixed characters |
| Services.ValueOf | Services/JsonStringLocalizer.cs:81-88 | a value found is the value of a property with exactly that name; a name that heads no property yields null |
| Services.Scan | Services/JsonStringLocalizer.cs:75-88 | an empty property name or path yields null; a value found belongs to a property with that non-empty name |
| Services.EffectiveCulture | Services/JsonStringLocalizer.cs:53-62 | the culture read is the current or the default one, and it has a file exactly when one of the two has |
| Services.Lookup | Services/JsonStringLocalizer.cs:51-71 | the culture afterwards is the current or the default one; with no file the result is null and the cache unchanged; no cache entry is ever removed; a non-empty result is a hit in the cache afterwards |
| Services.FirstMatch | Services/JsonStringLocalizer.cs:81-88 | the index found is the first property whose name equals the key exactly; none means no property has that name |
| Services.ToLocalized | Services/JsonStringLocalizer.cs:17 | the name is the key; not found exactly when the value is null; the value is the string found, or else the key |
| Services.FormatFound | Services/JsonStringLocalizer.cs:25-28 | a not-found result passes through unchanged; a found one stays found and its value is the formatted string |
| Services.JsonStringLocalizer.constructor | Services/JsonStringLocalizer.cs:8 | the localizer starts from the given culture, cache, resource files and default culture |
| Services.JsonStringLocalizer.GetValueFromJson | Services/JsonStringLocalizer.cs:73-90 | an empty property name or path yields null; otherwise the result is the value of the first property with that exact name, null when none |
| Services.JsonStringLocalizer.GetString | Services/JsonStringLocalizer.cs:51-71 | the culture afterwards is the current one, or the default when the current has no file; no file yields null and an unchanged cache; a non-empty cache entry is returned as is; otherwise the file scan's result is returned and cached only when non-empty |
| Services.JsonStringLocalizer.Item | Services/JsonStringLocalizer.cs:12-19 | after the lookup, the result is the found string with not-found false, or the key with not-found true |
| Services.JsonStringLocalizer.ItemFormatted | Services/JsonStringLocalizer.cs:21-30 | a missing key yields (name, name, not found); a found one yields the formatted string, found |
| Services.JsonStringLocalizer.GetAllStrings | Services/JsonStringLocalizer.cs:32-49 | no file for the current culture is a file-not-found failure with nothing yielded; otherwise one found entry per property in document order, stopping with a failure at the first null value; culture and cache are not changed |
| ServicesProperties.FilePathInjective | Services/JsonStringLocalizer.cs:53 | two cultures share a resource path exactly when they are equal |
| ServicesProperties.CacheKeyInjective | Services/JsonStringLocalizer.cs:65 | for culture names without `_` the cache key determines both the culture and the key |
| ServicesProperties.CacheKeyCollision | Services/JsonStringLocalizer.cs:65 | with `_` in a culture name (es-ES_tradnl), two different lookups share one cache key |
| ServicesProperties.FirstMatchWins | Services/JsonStringLocalizer.cs:83-85 | the value returned is that of the first property with the name |
| ServicesProperties.LaterDuplicatesIgnored | Services/JsonStringLocalizer.cs:81-88 | properties after the first match never change the result |
| ServicesProperties.AbsentNameYieldsNothing | Services/JsonStringLocalizer.cs:88 | a name that heads no property yields null |
| ServicesProperties.HitAfterWrite | Services/JsonStringLocalizer.cs:67-69 | after a cache write the entry is a hit exactly when the value written is non-empty, which is why only non-empty results are written |
| ServicesProperties.FallbackPersists | Services/JsonStringLocalizer.cs:55-62 | a culture without a file becomes the default culture; if the default has no file either, the result is null and the cache is unchanged |
| ServicesProperties.CultureWithFileKept | Services/JsonStringLocalizer.cs:53-55 | a culture that has a file is left as it is |
| ServicesProperties.CacheHitIgnoresFile | Services/JsonStringLocalizer.cs:65-67 | a non-empty cache entry under the post-fallback key is returned, and the outcome does not depend on file contents |
| ServicesProperties.CacheWriteOnlyNonEmpty | Services/JsonStringLocalizer.cs:68-70 | the cache is either unchanged or gains the non-empty result under the post-fallback key; null and empty results leave it unchanged |
| ServicesProperties.LookupIdempotent | Services/JsonStringLocalizer.cs:51-71 | a second lookup of the same key returns the same value and leaves culture and cache as the first left them |
| ServicesProperties.EmptyKeyNotFound | Services/JsonStringLocalizer.cs:75 | an empty key with no cached entry is not found and leaves the cache unchanged |
| ServicesProperties.LookupAgreesWithFiles | Services/JsonStringLocalizer.cs:51-71 | while the cache agrees with the files, a lookup returns the direct scan of the effective culture's file and the cache keeps agreeing |
| ServicesProperties.NotFoundIsKey | Services/JsonStringLocalizer.cs:17 | a missing string reads as the key, flagged not found, with or without formatting |
| ServicesProperties.EmptyStringIsFound | Services/JsonStringLocalizer.cs:17 | an empty string found in a file is not flagged not found |
| ServicesProperties.GreetingExample | Services/JsonStringLocalizer.cs:12-19 | with `{"greeting": "Hello"}`, "greeting" yields "Hello" found and is cached; "missing" yields "missing", not found |
| ServicesProperties.FallbackExample | Services/JsonStringLocalizer.cs:55-70 | a culture without a file reads the default culture's file and switches to the default |
| Middleware.FirstSegment | Middleware/LocalizationMiddleware.cs:13 | the result is a prefix of the header with no comma, followed in the header by a comma when shorter |
| Middleware.ToUpper | Middleware/LocalizationMiddleware.cs:16 | same length, no lower-case letter left, every other character unchanged |
| Middleware.EqualsIgnoreCase | Middleware/LocalizationMiddleware.cs:36 | names equal ignoring case have the same length, and every name equals itself |
| Middleware.CultureKey | Middleware/LocalizationMiddleware.cs:11-18 | the key never holds a comma; without a comma in the header it is the header; with one it is a proper prefix of the header, or a five-character expansion whose first two characters start the header and whose third is `-` |
| Middleware.DoesCultureExist | Middleware/LocalizationMiddleware.cs:33-37 | true exactly when some known culture name equals the name ignoring case |
| Middleware.CanonicalName | Middleware/LocalizationMiddleware.cs:24 | the culture built is a known culture name equal to the key ignoring case |
| Middleware.ExistsHasCanonicalName | Middleware/LocalizationMiddleware.cs:22-24 | a culture that exists has a canonical name, and conversely |
| Middleware.RequestContext.constructor | Middleware/LocalizationMiddleware.cs:7 | a request starts with the given cultures and with the next stage not yet run |
| Middleware.RequestContext.Next | Middleware/LocalizationMiddleware.cs:30 | invoking the next stage counts one more run, and that run sees the cultures current at that moment |
| Middleware.LocalizationMiddleware.constructor | Middleware/LocalizationMiddleware.cs:35 | the middleware validates against the given known cultures |
| Middleware.LocalizationMiddleware.InvokeAsync | Middleware/LocalizationMiddleware.cs:7-31 | the next stage runs exactly once, and it runs under the cultures the method leaves behind (after any update); an empty or unknown key leaves both cultures unchanged; a known key sets both cultures to the same known name equal to it ignoring case |
| MiddlewareProperties.FirstSegmentOf | Middleware/LocalizationMiddleware.cs:13 | the text before the first comma is exactly the comma-free head |
| MiddlewareProperties.NoCommaKeptVerbatim | Middleware/LocalizationMiddleware.cs:11 | a header without a comma is the key verbatim |
| MiddlewareProperties.CommaTakesFirstEntry | Middleware/LocalizationMiddleware.cs:11-18 | with a comma, the key is the comma-free text before it, expanded when two characters long |
| MiddlewareProperties.TwoLetterExpansion | Middleware/LocalizationMiddleware.cs:14-17 | a two-letter first entry c becomes c + "-" + upper(c), five characters |
| MiddlewareProperties.LongerFirstEntryKept | Middleware/LocalizationMiddleware.cs:13-14 | a first entry of any other length is kept unchanged, weight included |
| MiddlewareProperties.GermanExpansionExample | Middleware/LocalizationMiddleware.cs:14-17 | "de,en" gives "de-DE" |
| MiddlewareProperties.FrenchExpansionExample | Middleware/LocalizationMiddleware.cs:14-17 | "fr,de" gives "fr-FR" |
| MiddlewareProperties.EnglishExpansionExample | Middleware/LocalizationMiddleware.cs:14-17 | "en,de" gives "en-EN" |
| MiddlewareProperties.BareTwoLetterExample | Middleware/LocalizationMiddleware.cs:11-18 | a bare "de" stays "de" |
| MiddlewareProperties.FirstEntryExamples | Middleware/LocalizationMiddleware.cs:13 | "en-US,en;q=0.5" gives "en-US", "fr;q=0.8,de" gives "fr;q=0.8", ",de" gives "" |
| MiddlewareProperties.EqualsIgnoreCaseEquivalence | Middleware/LocalizationMiddleware.cs:36 | comparison ignoring case is reflexive, symmetric and transitive |
| MiddlewareProperties.UpperIsSameIgnoringCase | Middleware/LocalizationMiddleware.cs:16 | an upper-cased name equals the original ignoring case |
| MiddlewareProperties.KnownCultureAccepted | Middleware/LocalizationMiddleware.cs:33-37 | a name equal to a known culture ignoring case, or its upper-cased form, is accepted and has a canonical name |
| MiddlewareProperties.UnknownCultureRejected | Middleware/LocalizationMiddleware.cs:33-37 | a name equal to no known culture is rejected and has no canonical name |
| MiddlewareProperties.UnknownExample | Middleware/LocalizationMiddleware.cs:33-37 | "xx-XX" is rejected among en-US and de-DE; "DE-de" is accepted as de-DE |
| MiddlewareProperties.EmptyNameMatchesOnlyEmpty | Middleware/LocalizationMiddleware.cs:20 | the empty key exists exactly when the invariant culture's empty name is known, which is why the emptiness guard matters |

## Left out

- File I/O: `FileStream`, `File.Exists` and `Path.GetFullPath` are not modelled. A file is a flat property list, and existence is membership in `files`.
- JSON tokenising by `JsonTextReader` is not modelled: nested documents, malformed JSON, and non-string values that `Deserialize<string>` converts.
- `GetAllStrings` is lazy (`yield return`); the model returns the finished enumeration, and `includeParentCultures` is ignored as in the source.
- `IDistributedCache` is a plain map. Expiry, eviction and backend failures are not modelled.
- `string.Format` is the parameter `fmt`. Its `FormatException` on a malformed template is not modelled, and neither is that it formats `object` arguments under the current culture (which `GetString` may just have switched to the default): `fmt` takes pre-rendered strings and no culture.
- Middleware.CultureKey: the length test `cultureKey.Length == 2` counts UTF-16 code units, while the model counts characters (Unicode scalar values), so a single non-BMP character before a comma is expanded by the source but not by the model; InvokeAsync behaves the same either way, as no known culture matches such a key.
- Middleware.ToUpper: upper-cases ASCII letters only, because culture-specific casing data is not modelled (for example the Turkish dotted i).
- Middleware.EqualsIgnoreCase: folds ASCII letters only, a stand-in for `CurrentCultureIgnoreCase`; its "equal ignoring case implies equal length" holds of that fold only, since culture-sensitive comparison ignores ignorable code points and can equate strings of different lengths.
- Middleware.DoesCultureExist: compares with ASCII case folding rather than `CurrentCultureIgnoreCase`, because culture comparison data is not modelled.
- `new CultureInfo(name)` is modelled as choosing the first known name equal to the key ignoring case. Culture data from ICU or the OS is not modelled.
- `new CultureInfo(DefaultCulture)` is taken to have the configured name. An invalid configured default, which would throw, is not modelled.
- Thread-local ambient culture and `async`/`await` are not modelled; concurrency and request scoping are out of scope. The middleware's context and the localizer each hold the culture in a field of their own, and `next` is `RequestContext.Next`.
- Program.cs (bootstrapping, dependency injection, routing, HTTPS) is framework wiring with no logic.
- Services/JsonStringLocalizerFactory.cs only constructs localizers and has no behaviour of its own.
