/**
 * The vegan-status badge of a product card. The two pages classify the
 * status text by different rules:
 *  - the paginated page lower-cases the text, turns every white-space
 *    character and hyphen into `_`, and then matches `vegan` or `non_vegan`
 *    exactly;
 *  - the simple page lower-cases the text and matches it against two lists
 *    of synonyms.
 * Each rule yields one of three labels.
 */
module Badges {
  import opened Js

  datatype Label = Vegan | NotVegan | Unknown

  /** `s` and `w` are equal when case is ignored. */
  predicate EqualsIgnoringCase(s: string, w: string)
  {
    |s| == |w| && forall i :: 0 <= i < |s| ==> LowerChar(s[i]) == LowerChar(w[i])
  }

  lemma {:induction false} LowerEqualsIgnoringCase(s: string, w: string)
    requires forall i :: 0 <= i < |w| ==> !('A' <= w[i] <= 'Z')
    ensures Lower(s) == w <==> EqualsIgnoringCase(s, w)
  {
    LowerAt(s);
    if EqualsIgnoringCase(s, w) {
      assert forall i :: 0 <= i < |w| ==> LowerChar(w[i]) == w[i];
      assert Lower(s) == w;
    }
  }

  // ---------------------------------------------------------------------
  // The paginated page (script.js)
  // ---------------------------------------------------------------------

  /** A character the status normalisation replaces: `/[\s-]/`. */
  predicate IsSeparator(c: char)
  {
    IsWhitespace(c) || c == '-'
  }

  /** `.replace(/[\s-]/g, '_')`. */
  function ReplaceSeparators(s: string): string
  {
    if s == [] then []
    else [if IsSeparator(s[0]) then '_' else s[0]] + ReplaceSeparators(s[1..])
  }

  lemma {:induction false} ReplaceSeparatorsAt(s: string)
    ensures |ReplaceSeparators(s)| == |s|
    ensures forall i :: 0 <= i < |s| ==>
      ReplaceSeparators(s)[i] == if IsSeparator(s[i]) then '_' else s[i]
  {
    if s != [] {
      ReplaceSeparatorsAt(s[1..]);
    }
  }

  /** `status.toLowerCase().replace(/[\s-]/g, '_')`. */
  function NormaliseStatus(s: string): string
  {
    ReplaceSeparators(Lower(s))
  }

  /** The normalisation of one character: `_` for a separator, otherwise
      its lower-case form, which is neither a separator nor upper case. */
  function NormaliseChar(c: char): (r: char)
    ensures !IsSeparator(r) && !('A' <= r <= 'Z')
  {
    if IsSeparator(c) then '_' else LowerChar(c)
  }

  /** Lower-casing neither makes nor unmakes a separator. */
  lemma LowerCharSeparator(c: char)
    ensures IsSeparator(LowerChar(c)) == IsSeparator(c)
  {
    if 'A' <= c <= 'Z' {
      assert !IsWhitespace(c) && !IsWhitespace(LowerChar(c));
    }
  }

  /** Normalisation keeps the length and works character by character. */
  lemma NormaliseStatusAt(s: string)
    ensures |NormaliseStatus(s)| == |s|
    ensures forall i :: 0 <= i < |s| ==> NormaliseStatus(s)[i] == NormaliseChar(s[i])
  {
    LowerAt(s);
    ReplaceSeparatorsAt(Lower(s));
    forall i | 0 <= i < |s| ensures NormaliseStatus(s)[i] == NormaliseChar(s[i]) {
      LowerCharSeparator(s[i]);
    }
  }

  /** Normalising a normalised status changes nothing. */
  lemma NormaliseStatusIdempotent(s: string)
    ensures NormaliseStatus(NormaliseStatus(s)) == NormaliseStatus(s)
  {
    var n := NormaliseStatus(s);
    NormaliseStatusAt(s);
    NormaliseStatusAt(n);
  }

  /** The label chosen for a normalised status. */
  function StatusLabel(status: string): Label
  {
    if status == "vegan" then Vegan
    else if status == "non_vegan" then NotVegan
    else Unknown
  }

  /** The badge of a product on the paginated page: `(vegan_status || '')` is
      normalised and classified. A truthy status that is not a string has no
      `toLowerCase` and throws a TypeError. */
  function ScriptBadge(status: JsValue): (r: Outcome<Label>)
    ensures r.Throws? <==> Truthy(status) && !status.Str?
    ensures !Truthy(status) ==> r == Value(Unknown)
  {
    match LowerOrThrow(Or(status, Str("")))
    case Throws => Throws
    case Value(lower) => Value(StatusLabel(ReplaceSeparators(lower)))
  }

  /** Vegan exactly for the text `vegan` in any case. */
  lemma ScriptBadgeVegan(s: string)
    ensures ScriptBadge(Str(s)) == Value(Vegan) <==> EqualsIgnoringCase(s, "vegan")
  {
    NormaliseStatusAt(s);
    if s != "" && ScriptBadge(Str(s)) == Value(Vegan) {
      assert forall i :: 0 <= i < |s| ==> !IsSeparator(s[i]) by {
        forall i | 0 <= i < |s| ensures !IsSeparator(s[i]) {
          assert NormaliseStatus(s)[i] != '_';
        }
      }
    }
    if EqualsIgnoringCase(s, "vegan") {
      assert forall i :: 0 <= i < |s| ==> !IsSeparator(s[i]) by {
        forall i | 0 <= i < |s| ensures !IsSeparator(s[i]) {
          assert LowerChar(s[i]) == "vegan"[i];
        }
      }
      assert NormaliseStatus(s) == "vegan";
    }
  }

  /** `non`, one separator or underscore, then `vegan`, in any case. */
  predicate NonVeganSpelling(s: string)
  {
    |s| == 9 && EqualsIgnoringCase(s[..3], "non") && (IsSeparator(s[3]) || s[3] == '_')
    && EqualsIgnoringCase(s[4..], "vegan")
  }

  /** Not Vegan exactly for `non`, one separator or underscore, then `vegan`,
      in any case: "Non-Vegan", "NON VEGAN" and "non_vegan" all qualify. */
  lemma ScriptBadgeNotVegan(s: string)
    ensures ScriptBadge(Str(s)) == Value(NotVegan) <==> NonVeganSpelling(s)
  {
    assert ScriptBadge(Str(s)) == Value(StatusLabel(NormaliseStatus(s)));
    if NormaliseStatus(s) == "non_vegan" {
      NotVeganIsSpelled(s);
    }
    if NonVeganSpelling(s) {
      SpelledIsNotVegan(s);
    }
  }

  lemma NotVeganIsSpelled(s: string)
    requires NormaliseStatus(s) == "non_vegan"
    ensures NonVeganSpelling(s)
  {
    NormaliseStatusAt(s);
    var w := NormaliseStatus(s);
    forall i | 0 <= i < 9 && i != 3 ensures LowerChar(s[i]) == w[i] {
      assert NormaliseChar(s[i]) == w[i];
    }
    assert NormaliseChar(s[3]) == '_';
    assert s[..3] == [s[0], s[1], s[2]];
    assert s[4..] == [s[4], s[5], s[6], s[7], s[8]];
  }

  lemma SpelledIsNotVegan(s: string)
    requires NonVeganSpelling(s)
    ensures ScriptBadge(Str(s)) == Value(NotVegan)
  {
    var w := "non_vegan";
    forall i | 0 <= i < 9 ensures NormaliseChar(s[i]) == w[i] {
      if i < 3 {
        assert s[..3][i] == s[i];
        assert LowerChar(s[i]) == "non"[i];
      } else if i > 3 {
        assert s[4..][i - 4] == s[i];
        assert LowerChar(s[i]) == "vegan"[i - 4];
      }
    }
    NormalisesTo(s, w);
  }

  /** The normalised text of a status, position by position. */
  lemma NormalisesTo(s: string, w: string)
    requires |s| == |w|
    requires forall i :: 0 <= i < |s| ==> w[i] == NormaliseChar(s[i])
    ensures NormaliseStatus(s) == w
  {
    NormaliseStatusAt(s);
  }

  /** "Non-Vegan", "NON VEGAN" and "non_vegan" all show Not Vegan. */
  lemma NotVeganSpellingsAgree(hyphenated: string, spaced: string, underscored: string)
    requires hyphenated == "Non-Vegan" && spaced == "NON VEGAN" && underscored == "non_vegan"
    ensures ScriptBadge(Str(hyphenated)) == Value(NotVegan)
    ensures ScriptBadge(Str(spaced)) == Value(NotVegan)
    ensures ScriptBadge(Str(underscored)) == Value(NotVegan)
  {
    NormalisesTo(hyphenated, underscored);
    NormalisesTo(spaced, underscored);
    NormalisesTo(underscored, underscored);
  }

  // ---------------------------------------------------------------------
  // The simple page (frontend/script.js)
  // ---------------------------------------------------------------------

  /** The label chosen for a lower-cased status text. */
  function SynonymLabel(text: string): Label
  {
    if text == "vegan" || text == "yes" || text == "true" then Vegan
    else if text == "non-vegan" || text == "not vegan" || text == "no" || text == "false" then NotVegan
    else Unknown
  }

  /** The badge of a product on the simple page:
      `String(vegan_status || vegan || 'unknown').toLowerCase()` classified by
      synonyms. It never throws. */
  function SynonymBadge(veganStatus: JsValue, vegan: JsValue): Label
  {
    SynonymLabel(Lower(ToJsString(Or(Or(veganStatus, vegan), Str("unknown")))))
  }

  /** Vegan exactly for `vegan`, `yes` or `true` in any case, Not Vegan exactly
      for `non-vegan`, `not vegan`, `no` or `false` in any case. */
  lemma SynonymsIgnoreCase(s: string)
    ensures SynonymLabel(Lower(s)) == Vegan <==>
      EqualsIgnoringCase(s, "vegan") || EqualsIgnoringCase(s, "yes") || EqualsIgnoringCase(s, "true")
    ensures SynonymLabel(Lower(s)) == NotVegan <==>
      EqualsIgnoringCase(s, "non-vegan") || EqualsIgnoringCase(s, "not vegan")
      || EqualsIgnoringCase(s, "no") || EqualsIgnoringCase(s, "false")
  {
    LowerEqualsIgnoringCase(s, "vegan");
    LowerEqualsIgnoringCase(s, "yes");
    LowerEqualsIgnoringCase(s, "true");
    LowerEqualsIgnoringCase(s, "non-vegan");
    LowerEqualsIgnoringCase(s, "not vegan");
    LowerEqualsIgnoringCase(s, "no");
    LowerEqualsIgnoringCase(s, "false");
  }

  /** The older `vegan` field is read only when `vegan_status` is falsy, and a
      record with neither shows Unknown. */
  lemma SynonymBadgeFallback(veganStatus: JsValue, vegan: JsValue)
    ensures Truthy(veganStatus) ==> SynonymBadge(veganStatus, vegan) == SynonymBadge(veganStatus, Undefined)
    ensures !Truthy(veganStatus) ==> SynonymBadge(veganStatus, vegan) == SynonymBadge(vegan, Undefined)
    ensures !Truthy(veganStatus) && !Truthy(vegan) ==> SynonymBadge(veganStatus, vegan) == Unknown
  {
    var x := Or(Or(veganStatus, vegan), Str("unknown"));
    if Truthy(veganStatus) {
      assert x == Or(Or(veganStatus, Undefined), Str("unknown"));
    } else {
      assert x == Or(Or(vegan, Undefined), Str("unknown"));
      if !Truthy(vegan) {
        UnknownReadsUnknown(x.s);
      }
    }
  }

  /** The fallback text `unknown` is itself classified as Unknown. */
  lemma UnknownReadsUnknown(u: string)
    requires u == "unknown"
    ensures SynonymLabel(Lower(u)) == Unknown
  {
    LowerOfLowercase(u);
  }

  /** Lower-casing text without upper-case letters changes nothing. */
  lemma LowerOfLowercase(s: string)
    requires forall i :: 0 <= i < |s| ==> !('A' <= s[i] <= 'Z')
    ensures Lower(s) == s
  {
    LowerAt(s);
  }

  /** No synonym the simple page recognises holds an underscore. */
  lemma SynonymsHaveNoUnderscore(text: string)
    requires SynonymLabel(text) != Unknown
    ensures '_' !in text
  {
    if text == "vegan" || text == "yes" || text == "true" {
    } else if text == "non-vegan" || text == "not vegan" {
    } else {
    }
  }

  /** The simple page shows Unknown for every status with an underscore, so
      `non_vegan`, which the paginated page shows as Not Vegan, is Unknown
      here. */
  lemma UnderscoreUnknownOnSimplePage(s: string)
    requires '_' in s
    ensures SynonymBadge(Str(s), Undefined) == Unknown
  {
    assert Or(Or(Str(s), Undefined), Str("unknown")) == Str(s);
    LowerAt(s);
    var k :| 0 <= k < |s| && s[k] == '_';
    assert Lower(s)[k] == '_';
    if SynonymLabel(Lower(s)) != Unknown {
      SynonymsHaveNoUnderscore(Lower(s));
    }
  }

  /** Only the simple page understands `not vegan`. */
  lemma NotVeganPhraseDisagrees(s: string)
    requires s == "not vegan"
    ensures ScriptBadge(Str(s)) == Value(Unknown)
    ensures SynonymBadge(Str(s), Undefined) == NotVegan
  {
    NormalisesTo(s, "not_vegan");
    LowerOfLowercase(s);
  }

  /** Only the simple page understands `yes` and a boolean `true`; on the
      boolean the paginated page throws. */
  lemma YesAndTrueDisagree(s: string)
    requires s == "yes"
    ensures ScriptBadge(Str(s)) == Value(Unknown)
    ensures SynonymBadge(Str(s), Undefined) == Vegan
    ensures ScriptBadge(Bool(true)) == Throws
    ensures SynonymBadge(Bool(true), Undefined) == Vegan
  {
    NormalisesTo(s, "yes");
    LowerOfLowercase(s);
    LowerOfLowercase("true");
  }
}
