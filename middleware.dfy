/**
  The request-culture middleware (namespace weapploc.Middleware).

  It reads the Accept-Language header (section 12.5.4 of RFC 9110) literally:
  no quality weights, no language-to-region mapping. The first comma-separated
  entry is taken only when a comma is present, a two-letter first entry is
  expanded by repeating it upper-cased as the region, and the candidate is
  accepted when it equals a known culture name ignoring case.
*/
module Middleware {
  import opened Wrappers

  /** `s.Split(',').First()`: the text before the first comma, or all of `s`. */
  function FirstSegment(s: string): (r: string)
    ensures r <= s && ',' !in r
    ensures |r| < |s| ==> s[|r|] == ','
  {
    if s == [] || s[0] == ',' then [] else [s[0]] + FirstSegment(s[1..])
  }

  /** Upper-casing of one character (ASCII letters). */
  function UpperChar(c: char): (r: char)
  {
    if 'a' <= c <= 'z' then (c as int - 'a' as int + 'A' as int) as char else c
  }

  /** Case folding of one character for comparison (ASCII letters). */
  function FoldChar(c: char): (r: char)
  {
    if 'A' <= c <= 'Z' then (c as int - 'A' as int + 'a' as int) as char else c
  }

  /** ASCII stand-in for `string.ToUpper()`. */
  function ToUpper(s: string): (r: string)
    ensures |r| == |s|
    ensures forall i :: 0 <= i < |r| ==> !('a' <= r[i] <= 'z')
    ensures forall i :: 0 <= i < |s| && !('a' <= s[i] <= 'z') ==> r[i] == s[i]
  {
    seq(|s|, i requires 0 <= i < |s| => UpperChar(s[i]))
  }

  /** ASCII stand-in for `string.Equals(a, b, StringComparison.CurrentCultureIgnoreCase)`. */
  predicate EqualsIgnoreCase(a: string, b: string)
    ensures EqualsIgnoreCase(a, b) ==> |a| == |b|
    ensures a == b ==> EqualsIgnoreCase(a, b)
  {
    |a| == |b| && forall i :: 0 <= i < |a| ==> FoldChar(a[i]) == FoldChar(b[i])
  }

  /** The culture key the middleware validates, computed from the raw header. */
  function CultureKey(header: string): (r: string)
    ensures ',' !in r
    ensures ',' !in header ==> r == header
    ensures ',' in header ==> r < header || (|r| == 5 && r[..2] < header && r[2] == '-')
  {
    if ',' in header then
      var first := FirstSegment(header);
      if |first| == 2 then first + "-" + ToUpper(first) else first
    else header
  }

  /** DoesCultureExist: some known culture name equals `name` ignoring case. */
  function DoesCultureExist(cultures: seq<string>, name: string): (b: bool)
    ensures b <==> exists i :: 0 <= i < |cultures| && EqualsIgnoreCase(cultures[i], name)
  {
    if cultures == [] then false
    else EqualsIgnoreCase(cultures[0], name) || DoesCultureExist(cultures[1..], name)
  }

  /** The name of the culture `new CultureInfo(name)` builds: the first known name equal to it ignoring case. */
  function CanonicalName(cultures: seq<string>, name: string): (r: Option<string>)
    ensures r.Some? ==> r.value in cultures && EqualsIgnoreCase(r.value, name)
  {
    if cultures == [] then None
    else if EqualsIgnoreCase(cultures[0], name) then Some(cultures[0])
    else CanonicalName(cultures[1..], name)
  }

  /** The ambient state of the thread serving one request, and the rest of the pipeline. */
  class RequestContext {
    /** Thread.CurrentThread.CurrentCulture.Name. */
    var currentCulture: string
    /** Thread.CurrentThread.CurrentUICulture.Name. */
    var currentUICulture: string
    /** How many times the next stage of the pipeline has run on this request. */
    var nextCalls: nat
    /** The (culture, UI culture) each run of the next stage has seen, in order. */
    ghost var seen: seq<(string, string)>

    constructor (culture: string, uiCulture: string)
      ensures currentCulture == culture && currentUICulture == uiCulture
      ensures nextCalls == 0 && seen == []
    {
      currentCulture := culture;
      currentUICulture := uiCulture;
      nextCalls := 0;
      seen := [];
    }

    /** `await next(context)`: the rest of the pipeline runs once more, under the current cultures. */
    method Next()
      modifies this`nextCalls, this`seen
      ensures nextCalls == old(nextCalls) + 1
      ensures seen == old(seen) + [(currentCulture, currentUICulture)]
    {
      nextCalls := nextCalls + 1;
      seen := seen + [(currentCulture, currentUICulture)];
    }
  }

  class LocalizationMiddleware {
    /** The names of `CultureInfo.GetCultures(CultureTypes.AllCultures)`, in order. */
    const cultures: seq<string>

    constructor (known: seq<string>)
      ensures cultures == known
    {
      cultures := known;
    }

    /** InvokeAsync: sets both cultures from the header when it names a known culture, then runs `next`. */
    method InvokeAsync(context: RequestContext, acceptLanguage: string)
      modifies context
      ensures context.nextCalls == old(context.nextCalls) + 1
      ensures context.seen == old(context.seen) + [(context.currentCulture, context.currentUICulture)]
      ensures var key := CultureKey(acceptLanguage);
        key == "" || !DoesCultureExist(cultures, key) ==>
          context.currentCulture == old(context.currentCulture) &&
          context.currentUICulture == old(context.currentUICulture)
      ensures var key := CultureKey(acceptLanguage);
        key != "" && DoesCultureExist(cultures, key) ==>
          CanonicalName(cultures, key).Some? &&
          context.currentCulture == CanonicalName(cultures, key).value &&
          context.currentUICulture == context.currentCulture &&
          context.currentCulture in cultures && EqualsIgnoreCase(context.currentCulture, key)
    {
      var cultureKey := acceptLanguage;
      if ',' in cultureKey {
        cultureKey := FirstSegment(cultureKey);
        if |cultureKey| == 2 {
          cultureKey := cultureKey + "-" + ToUpper(cultureKey);
        }
      }
      if cultureKey != "" {
        if DoesCultureExist(cultures, cultureKey) {
          ExistsHasCanonicalName(cultures, cultureKey);
          var culture := CanonicalName(cultures, cultureKey).value;
          context.currentCulture := culture;
          context.currentUICulture := culture;
        }
      }
      context.Next();
    }
  }

  /** A culture that exists has a canonical name, and conversely. */
  lemma {:induction false} ExistsHasCanonicalName(cultures: seq<string>, name: string)
    ensures DoesCultureExist(cultures, name) <==> CanonicalName(cultures, name).Some?
  {
    if cultures != [] && !EqualsIgnoreCase(cultures[0], name) {
      ExistsHasCanonicalName(cultures[1..], name);
    }
  }
}
