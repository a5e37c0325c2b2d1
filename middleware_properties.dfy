/** Properties of the header normalisation and culture validation of the middleware. */
module MiddlewareProperties {
  import opened Wrappers
  import opened Middleware

  /** The first segment of `t + "," + rest` is `t` when `t` has no comma. */
  lemma {:induction false} FirstSegmentOf(t: string, rest: string)
    requires ',' !in t
    ensures FirstSegment(t + "," + rest) == t
  {
    var s := t + "," + rest;
    if t != [] {
      assert s[0] == t[0];
      assert s[1..] == t[1..] + "," + rest;
      FirstSegmentOf(t[1..], rest);
    }
  }

  /** Without a comma the header is validated verbatim: no trimming and no expansion. */
  lemma NoCommaKeptVerbatim(header: string)
    requires ',' !in header
    ensures CultureKey(header) == header
  {
  }

  /** With a comma the key is the text before the first comma, expanded only when it has two characters. */
  lemma CommaTakesFirstEntry(header: string)
    requires ',' in header
    ensures exists rest :: header == FirstSegment(header) + "," + rest
    ensures ',' !in FirstSegment(header)
    ensures var t := FirstSegment(header);
      CultureKey(header) == if |t| == 2 then t + "-" + ToUpper(t) else t
  {
    var t := FirstSegment(header);
    assert |t| < |header|;
    assert header == t + "," + header[|t| + 1..];
  }

  /** A two-letter first entry `c` becomes `c + "-" + upper(c)`, whatever follows the comma. */
  lemma TwoLetterExpansion(c: string, rest: string)
    requires |c| == 2 && ',' !in c
    ensures CultureKey(c + "," + rest) == c + "-" + ToUpper(c)
    ensures |CultureKey(c + "," + rest)| == 5
  {
    FirstSegmentOf(c, rest);
  }

  /** The first entry is kept with its weight: `;q=` is not removed. */
  lemma LongerFirstEntryKept(t: string, rest: string)
    requires |t| != 2 && ',' !in t
    ensures CultureKey(t + "," + rest) == t
  {
    FirstSegmentOf(t, rest);
  }

  /** "de" before a comma becomes "de-DE". */
  lemma GermanExpansionExample()
    ensures CultureKey("de,en") == "de-DE"
  {
    assert "de,en" == "de" + "," + "en";
    TwoLetterExpansion("de", "en");
    assert ToUpper("de") == "DE";
  }

  /** "fr" before a comma becomes "fr-FR". */
  lemma FrenchExpansionExample()
    ensures CultureKey("fr,de") == "fr-FR"
  {
    assert "fr,de" == "fr" + "," + "de";
    TwoLetterExpansion("fr", "de");
    assert ToUpper("fr") == "FR";
  }

  /** "en" before a comma becomes "en-EN", not a real region: the region only repeats the language. */
  lemma EnglishExpansionExample()
    ensures CultureKey("en,de") == "en-EN"
  {
    assert "en,de" == "en" + "," + "de";
    TwoLetterExpansion("en", "de");
    assert ToUpper("en") == "EN";
  }

  /** A bare "de" is validated as "de", unexpanded. */
  lemma BareTwoLetterExample()
    ensures CultureKey("de") == "de"
  {
    assert ',' !in "de";
  }

  /** A longer first entry, weight and all, is kept as it is; a leading comma leaves nothing. */
  lemma FirstEntryExamples()
    ensures CultureKey("en-US,en;q=0.5") == "en-US"
    ensures CultureKey("fr;q=0.8,de") == "fr;q=0.8"
    ensures CultureKey(",de") == ""
  {
    assert "en-US,en;q=0.5" == "en-US" + "," + "en;q=0.5";
    LongerFirstEntryKept("en-US", "en;q=0.5");
    assert "fr;q=0.8,de" == "fr;q=0.8" + "," + "de";
    LongerFirstEntryKept("fr;q=0.8", "de");
    assert ",de" == "" + "," + "de";
    LongerFirstEntryKept("", "de");
  }

  /** Ignoring case is an equivalence. */
  lemma EqualsIgnoreCaseEquivalence(a: string, b: string, c: string)
    ensures EqualsIgnoreCase(a, a)
    ensures EqualsIgnoreCase(a, b) ==> EqualsIgnoreCase(b, a)
    ensures EqualsIgnoreCase(a, b) && EqualsIgnoreCase(b, c) ==> EqualsIgnoreCase(a, c)
  {
  }

  /** Upper-casing does not change a name as far as the comparison is concerned. */
  lemma {:induction false} UpperIsSameIgnoringCase(s: string)
    ensures EqualsIgnoreCase(ToUpper(s), s)
  {
    forall i | 0 <= i < |s| ensures FoldChar(ToUpper(s)[i]) == FoldChar(s[i]) {
      var c := s[i];
      if 'a' <= c <= 'z' {
        assert UpperChar(c) as int == c as int - 32;
      }
    }
  }

  /** Every known culture is accepted in any spelling of its case, upper case included. */
  lemma KnownCultureAccepted(cultures: seq<string>, i: nat, name: string)
    requires i < |cultures| && EqualsIgnoreCase(cultures[i], name)
    ensures DoesCultureExist(cultures, name)
    ensures DoesCultureExist(cultures, ToUpper(name))
    ensures CanonicalName(cultures, name).Some?
  {
    UpperIsSameIgnoringCase(name);
    EqualsIgnoreCaseEquivalence(cultures[i], name, ToUpper(name));
    ExistsHasCanonicalName(cultures, name);
  }

  /** A name equal to no known culture is rejected. */
  lemma UnknownCultureRejected(cultures: seq<string>, name: string)
    requires forall i :: 0 <= i < |cultures| ==> !EqualsIgnoreCase(cultures[i], name)
    ensures !DoesCultureExist(cultures, name)
    ensures CanonicalName(cultures, name) == None
  {
    ExistsHasCanonicalName(cultures, name);
  }

  /** "xx-XX" is not a culture of a universe that lacks it. */
  lemma UnknownExample()
    ensures !DoesCultureExist(["en-US", "de-DE"], "xx-XX")
    ensures DoesCultureExist(["en-US", "de-DE"], "DE-de")
    ensures CanonicalName(["en-US", "de-DE"], "DE-de") == Some("de-DE")
  {
    assert FoldChar("en-US"[0]) != FoldChar("xx-XX"[0]);
    assert FoldChar("de-DE"[0]) != FoldChar("xx-XX"[0]);
    assert FoldChar("en-US"[0]) != FoldChar("DE-de"[0]);
    assert EqualsIgnoreCase("de-DE", "DE-de");
  }

  /** The empty name matches the invariant culture, whose name is empty: the emptiness guard is what skips it. */
  lemma EmptyNameMatchesOnlyEmpty(cultures: seq<string>)
    ensures DoesCultureExist(cultures, "") <==> "" in cultures
  {
    if "" in cultures {
      var i :| 0 <= i < |cultures| && cultures[i] == "";
      assert EqualsIgnoreCase(cultures[i], "");
    }
  }
}
