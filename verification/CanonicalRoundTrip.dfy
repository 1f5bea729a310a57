/**
 The main results about the canonical parser: it is sound and complete for the formatter, its
 ambiguity is exactly one optional scope, and the same holds behind a file extension.
*/
module CanonicalRoundTrip {
  import opened Basics
  import opened Numerals
  import opened CanonicalFilename
  import opened CanonicalInverse

  // x, formatted, reads prefix and suffix around the last separator.
  ghost predicate Fits(policy: Policy, prefix: string, suffix: string, x: Interpretation) {
    && policy.clean(x.prefix) && IdentityOk(x.identity) && Positive(x.mediaPart) && x.extension.None?
    && Head(x.prefix, x.identity) == prefix && Tail(x.identity, x.mediaPart) == suffix
  }

  // A reading of a stem: a legal interpretation with a sanitized prefix whose formatting is the stem.
  ghost predicate Reads(policy: Policy, stem: string, x: Interpretation) {
    && policy.clean(x.prefix) && IdentityOk(x.identity) && Positive(x.mediaPart) && x.extension.None?
    && FormatStem(x) == stem
  }

  // --------------------------------------------------------------- the classes are disjoint

  lemma NotEpisode(s: string)
    requires |s| < 2 || s[0] != 'S' || !IsDigit(s[1])
    ensures MatchEpisode(s).None?
  {
    if "S" <= s && |s| >= 2 {
      assert s[1..][0] == s[1];
    }
  }

  lemma LabelIsNotEpisode(scope: Option<Scope>, kind: Supplement, ordinal: Option<nat>, mp: Option<nat>)
    ensures MatchEpisode(Tail(Supplementary(scope, kind, ordinal), mp)).None?
  {
    var s := Tail(Supplementary(scope, kind, ordinal), mp);
    var rest := Marked(" ", ordinal) + Marked("-MP", mp);
    assert s == Label(kind) + rest;
    assert s[0] == Label(kind)[0] && s[1] == Label(kind)[1];
    NotEpisode(s);
  }

  lemma LabelNotR(kind: Supplement)
    ensures Label(kind)[0] != 'R'
  {
  }

  lemma RecapIsNeither(scope: Scope, position: Fixed, mp: Option<nat>)
    ensures MatchEpisode(Tail(Recap(scope, position), mp)).None?
    ensures MatchSupplementary(Tail(Recap(scope, position), mp)).None?
  {
    var s := Tail(Recap(scope, position), mp);
    assert s[0] == 'R';
    NotEpisode(s);
    MatchedLabelStarts(s, KINDS);
    if MatchLabel(s, KINDS).Some? {
      LabelNotR(MatchLabel(s, KINDS).value);
    }
  }

  // ------------------------------------------------------------------------- the scope

  lemma ScopedPrefixIff(prefix: string, p: string, scope: Scope)
    ensures ScopedPrefix(prefix) == Some((p, scope)) <==>
      ScopeOk(scope) && prefix == p + SEPARATOR + Structure(scope)
  {
    if ScopeOk(scope) && prefix == p + SEPARATOR + Structure(scope) {
      StructurePlain(scope);
      PlainEnds(p, Structure(scope));
      RPartitionIs(p, Structure(scope));
      MatchScopeIff(Structure(scope), scope);
    }
    if ScopedPrefix(prefix) == Some((p, scope)) {
      RPartitionFinds(prefix);
      MatchScopeIff(RPartition(prefix).value.1, scope);
    }
  }

  // ------------------------------------------------------------------- the alternatives

  lemma EpisodeFits(policy: Policy, prefix: string, suffix: string, x: Interpretation)
    requires MatchEpisode(suffix).Some?
    ensures x in Alternatives(policy, prefix, suffix) ==> Fits(policy, prefix, suffix, x)
  {
    var (scope, episode, mp) := MatchEpisode(suffix).value;
    MatchedEpisode(suffix, scope, episode, mp);
  }

  lemma SupplementaryFits(policy: Policy, prefix: string, suffix: string, x: Interpretation)
    requires MatchEpisode(suffix).None? && MatchSupplementary(suffix).Some?
    ensures x in Alternatives(policy, prefix, suffix) ==> Fits(policy, prefix, suffix, x)
  {
    if x in Alternatives(policy, prefix, suffix) {
      var (kind, ordinal, mp) := MatchSupplementary(suffix).value;
      var scoped := ScopedPrefix(prefix);
      if x.identity.scope.Some? {
        ScopedPrefixIff(prefix, scoped.value.0, scoped.value.1);
        MatchedSupplementary(suffix, Some(scoped.value.1), kind, ordinal, mp);
      } else {
        MatchedSupplementary(suffix, None, kind, ordinal, mp);
      }
    }
  }

  lemma RecapFits(policy: Policy, prefix: string, suffix: string, x: Interpretation)
    requires MatchEpisode(suffix).None? && MatchSupplementary(suffix).None?
    ensures x in Alternatives(policy, prefix, suffix) ==> Fits(policy, prefix, suffix, x)
  {
    if x in Alternatives(policy, prefix, suffix) {
      var (position, mp) := MatchRecap(suffix).value;
      var scoped := ScopedPrefix(prefix);
      ScopedPrefixIff(prefix, scoped.value.0, scoped.value.1);
      MatchedRecap(suffix, scoped.value.1, position, mp);
    }
  }

  lemma FittingIsFound(policy: Policy, prefix: string, suffix: string, x: Interpretation)
    requires Fits(policy, prefix, suffix, x)
    ensures x in Alternatives(policy, prefix, suffix)
  {
    match x.identity
    case Episode(s, p, e) =>
      EpisodeIsMatched(Scope(s, p), e, x.mediaPart);
    case Supplementary(scope, kind, ordinal) =>
      LabelIsNotEpisode(scope, kind, ordinal, x.mediaPart);
      SupplementaryIsMatched(scope, kind, ordinal, x.mediaPart);
      if scope.Some? {
        ScopedPrefixIff(prefix, x.prefix, scope.value);
      }
    case Recap(scope, position) =>
      RecapIsNeither(scope, position, x.mediaPart);
      RecapIsMatched(scope, position, x.mediaPart);
      ScopedPrefixIff(prefix, x.prefix, scope);
  }

  lemma AlternativesIff(policy: Policy, prefix: string, suffix: string, x: Interpretation)
    ensures x in Alternatives(policy, prefix, suffix) <==> Fits(policy, prefix, suffix, x)
  {
    if MatchEpisode(suffix).Some? {
      EpisodeFits(policy, prefix, suffix, x);
    } else if MatchSupplementary(suffix).Some? {
      SupplementaryFits(policy, prefix, suffix, x);
    } else {
      RecapFits(policy, prefix, suffix, x);
    }
    if Fits(policy, prefix, suffix, x) {
      FittingIsFound(policy, prefix, suffix, x);
    }
  }

  // ------------------------------------------------------------------ exact inverse, stems

  lemma StemIff(policy: Policy, stem: string, x: Interpretation)
    ensures x in ParseStem(policy, stem) <==> Valid(policy, stem) && Reads(policy, stem, x)
  {
    RPartitionFinds(stem);
    if Reads(policy, stem, x) {
      var head, tail := Head(x.prefix, x.identity), Tail(x.identity, x.mediaPart);
      TailPlain(x.identity, x.mediaPart);
      PlainEnds(head, tail);
      RPartitionIs(head, tail);
    }
    if RPartition(stem).Some? {
      AlternativesIff(policy, RPartition(stem).value.0, RPartition(stem).value.1, x);
    }
  }

  lemma FormatThenParse(policy: Policy, x: Interpretation)
    requires policy.clean(x.prefix) && IdentityOk(x.identity) && Positive(x.mediaPart) && x.extension.None?
    requires Valid(policy, FormatStem(x))
    ensures x in ParseStem(policy, FormatStem(x))
  {
    StemIff(policy, FormatStem(x), x);
  }

  // --------------------------------------------------------------------------- ambiguity

  lemma {:induction false} PrefixBefore(a: string, t: string)
    requires t != ""
    ensures Before(a, a + t) && !Before(a + t, a)
  {
    if a == "" {
      assert a + t == t;
    } else {
      PrefixBefore(a[1..], t);
      assert (a + t)[1..] == a[1..] + t;
    }
  }

  // The two readings of one ambiguous text: with the scope, and with the scope left in the prefix.
  ghost predicate TwoReadings(scoped: Interpretation, root: Interpretation) {
    && scoped.identity.Supplementary? && scoped.identity.scope.Some?
    && root == Interpretation(
      scoped.prefix + SEPARATOR + Structure(scoped.identity.scope.value), scoped.identity.(scope := None),
      scoped.mediaPart, scoped.extension)
  }

  lemma TwoAlternatives(policy: Policy, prefix: string, suffix: string)
    ensures |Alternatives(policy, prefix, suffix)| <= 2
    ensures |Alternatives(policy, prefix, suffix)| == 2 ==>
      && MatchSupplementary(suffix).Some? && ScopedPrefix(prefix).Some?
      && var (kind, ordinal, mp) := MatchSupplementary(suffix).value;
      && var (p, scope) := ScopedPrefix(prefix).value;
      && Alternatives(policy, prefix, suffix) == Sorted([
        Interpretation(prefix, Supplementary(None, kind, ordinal), mp, None),
        Interpretation(p, Supplementary(Some(scope), kind, ordinal), mp, None)])
  {
  }

  lemma ScopedFirst(prefix: string, p: string, scope: Scope)
    requires ScopedPrefix(prefix) == Some((p, scope))
    ensures prefix == p + SEPARATOR + Structure(scope) && Before(p, prefix)
  {
    ScopedPrefixIff(prefix, p, scope);
    PrefixBefore(p, SEPARATOR + Structure(scope));
    assert prefix == p + (SEPARATOR + Structure(scope));
  }

  lemma AtMostTwoReadings(policy: Policy, stem: string)
    ensures |ParseStem(policy, stem)| <= 2
    ensures |ParseStem(policy, stem)| == 2 ==>
      TwoReadings(ParseStem(policy, stem)[0], ParseStem(policy, stem)[1])
  {
    if RPartition(stem).Some? {
      var (prefix, suffix) := RPartition(stem).value;
      TwoAlternatives(policy, prefix, suffix);
      if |ParseStem(policy, stem)| == 2 {
        ScopedFirst(prefix, ScopedPrefix(prefix).value.0, ScopedPrefix(prefix).value.1);
      }
    }
  }

  lemma PrefixesDiffer(policy: Policy, stem: string, i: nat, j: nat)
    requires i < j < |ParseStem(policy, stem)|
    ensures Before(ParseStem(policy, stem)[i].prefix, ParseStem(policy, stem)[j].prefix)
  {
    AtMostTwoReadings(policy, stem);
    var xs := ParseStem(policy, stem);
    var added := SEPARATOR + Structure(xs[0].identity.scope.value);
    assert xs[1].prefix == xs[0].prefix + added;
    PrefixBefore(xs[0].prefix, added);
  }

  // A text is ambiguous exactly when it carries a scope that the prefix could also carry.
  lemma AmbiguousIff(policy: Policy, stem: string)
    ensures |ParseStem(policy, stem)| == 2 <==>
      Valid(policy, stem) && exists x, y :: TwoReadings(x, y) && Reads(policy, stem, x) && policy.clean(y.prefix)
  {
    var xs := ParseStem(policy, stem);
    AtMostTwoReadings(policy, stem);
    if |xs| == 2 {
      StemIff(policy, stem, xs[0]);
      StemIff(policy, stem, xs[1]);
    }
    if x, y :| TwoReadings(x, y) && Valid(policy, stem) && Reads(policy, stem, x) && policy.clean(y.prefix) {
      StemIff(policy, stem, x);
      assert FormatStem(y) == FormatStem(x);
      StemIff(policy, stem, y);
      assert x in xs && y in xs && x != y;
    }
  }

  // -------------------------------------------------------------------------- extensions

  ghost predicate WordEnds(s: string) {
    s != "" && s[|s| - 1] != ' ' && s[|s| - 1] != '.'
  }

  lemma MarkedEnds(mark: string, n: Option<nat>)
    requires Positive(n)
    ensures n.Some? ==> WordEnds(Marked(mark, n))
  {
    if n.Some? { PaddedIsRead(n.value); }
  }

  lemma WordAppended(a: string, b: string)
    requires if b == "" then WordEnds(a) else WordEnds(b)
    ensures WordEnds(a + b)
  {
  }

  lemma EpisodeEnds(scope: Scope, episode: nat, mp: Option<nat>)
    requires episode > 0 && Positive(mp)
    ensures WordEnds(Tail(Episode(scope.season, scope.part, episode), mp))
  {
    PaddedIsRead(episode);
    MarkedEnds("-MP", mp);
    WordAppended(Structure(scope) + "E", Padded(episode));
    WordAppended(Structure(scope) + "E" + Padded(episode), Marked("-MP", mp));
  }

  lemma SupplementaryEnds(scope: Option<Scope>, kind: Supplement, ordinal: Option<nat>, mp: Option<nat>)
    requires Positive(ordinal) && Positive(mp)
    ensures WordEnds(Tail(Supplementary(scope, kind, ordinal), mp))
  {
    MarkedEnds(" ", ordinal);
    MarkedEnds("-MP", mp);
    assert WordEnds(Label(kind));
    WordAppended(Label(kind), Marked(" ", ordinal));
    WordAppended(Label(kind) + Marked(" ", ordinal), Marked("-MP", mp));
  }

  lemma RecapEnds(scope: Scope, position: Fixed, mp: Option<nat>)
    requires Lowest(position) && Positive(mp)
    ensures WordEnds(Tail(Recap(scope, position), mp))
  {
    MarkedEnds("-MP", mp);
    FixedTextEnds(position);
    WordAppended("Recap ", FixedText(position));
    WordAppended("Recap " + FixedText(position), Marked("-MP", mp));
  }

  lemma FixedTextEnds(x: Fixed)
    requires Lowest(x)
    ensures FixedText(x) != "" && WordEnds(FixedText(x))
  {
    FixedIsRead(x);
  }

  lemma TailEnds(i: Identity, mp: Option<nat>)
    requires IdentityOk(i) && Positive(mp)
    ensures WordEnds(Tail(i, mp))
  {
    match i
    case Episode(s, p, e) => EpisodeEnds(Scope(s, p), e, mp);
    case Supplementary(scope, kind, ordinal) => SupplementaryEnds(scope, kind, ordinal, mp);
    case Recap(scope, position) => RecapEnds(scope, position, mp);
  }

  lemma {:induction false} FirstPartKeeps(stem: string, e: string)
    requires e != "" && e[0] == '.'
    ensures FirstPart(stem + e) == FirstPart(stem)
  {
    if stem == "" {
      assert stem + e == e;
    } else {
      FirstPartKeeps(stem[1..], e);
      assert (stem + e)[1..] == stem[1..] + e;
    }
  }

  lemma {:induction false} Utf8Grows(policy: Policy, stem: string, e: string)
    ensures Utf8(policy, stem) <= Utf8(policy, stem + e)
  {
    if stem != "" {
      Utf8Grows(policy, stem[1..], e);
      assert (stem + e)[1..] == stem[1..] + e;
    }
  }

  // The stem of a valid filename is a valid component whenever it ends in a word.
  lemma StemIsValid(policy: Policy, stem: string, e: string)
    requires ExtensionOk(e) && WordEnds(stem) && Valid(policy, stem + e)
    ensures Valid(policy, stem)
  {
    var filename := stem + e;
    FirstPartKeeps(stem, e);
    Utf8Grows(policy, stem, e);
    assert forall k :: 0 <= k < |stem| ==> stem[k] == filename[k];
  }

  // A reading of a filename with its extension given.
  ghost predicate ReadsFile(policy: Policy, filename: string, e: string, x: Interpretation) {
    && policy.clean(x.prefix) && IdentityOk(x.identity) && Positive(x.mediaPart) && x.extension == Some(e)
    && FormatFilename(x) == filename
  }

  lemma ReadFileIff(policy: Policy, stem: string, e: string, x: Interpretation)
    ensures ReadsFile(policy, stem + e, e, x) <==>
      x.extension == Some(e) && Reads(policy, stem, x.(extension := None))
  {
    assert FormatStem(x.(extension := None)) == FormatStem(x);
    if FormatStem(x) + e == stem + e {
      assert FormatStem(x) == (FormatStem(x) + e)[..|FormatStem(x)|];
      assert stem == (stem + e)[..|stem|];
    }
  }

  lemma WithExtensionIff(xs: seq<Interpretation>, e: string, x: Interpretation)
    requires forall k :: 0 <= k < |xs| ==> xs[k].extension.None?
    ensures x in WithExtension(xs, e) <==> x.extension == Some(e) && x.(extension := None) in xs
  {
    if x.extension == Some(e) && x.(extension := None) in xs {
      var k :| 0 <= k < |xs| && xs[k] == x.(extension := None);
      assert WithExtension(xs, e)[k] == x;
    }
    if x in WithExtension(xs, e) {
      var k :| 0 <= k < |xs| && WithExtension(xs, e)[k] == x;
      assert x.(extension := None) == xs[k];
    }
  }

  lemma StemReadingsHaveNoExtension(policy: Policy, stem: string)
    ensures forall k :: 0 <= k < |ParseStem(policy, stem)| ==> ParseStem(policy, stem)[k].extension.None?
  {
    forall k | 0 <= k < |ParseStem(policy, stem)|
      ensures ParseStem(policy, stem)[k].extension.None?
    {
      StemIff(policy, stem, ParseStem(policy, stem)[k]);
    }
  }

  lemma ReadStemIsValid(policy: Policy, stem: string, e: string, x: Interpretation)
    requires ExtensionOk(e) && Valid(policy, stem + e) && Reads(policy, stem, x)
    ensures Valid(policy, stem)
  {
    TailEnds(x.identity, x.mediaPart);
    WordAppended(Head(x.prefix, x.identity) + SEPARATOR, Tail(x.identity, x.mediaPart));
    StemIsValid(policy, stem, e);
  }

  // ------------------------------------------------------------- exact inverse, filenames

  lemma FilenameIff(policy: Policy, filename: string, e: string, x: Interpretation)
    ensures x in ParseFilename(policy, filename, e) <==>
      ExtensionOk(e) && Valid(policy, filename) && ReadsFile(policy, filename, e, x)
  {
    if ExtensionOk(e) && |filename| >= |e| && filename[|filename| - |e|..] == e && Valid(policy, filename) {
      var stem := filename[..|filename| - |e|];
      assert filename == stem + e;
      StemReadingsHaveNoExtension(policy, stem);
      WithExtensionIff(ParseStem(policy, stem), e, x);
      ReadFileIff(policy, stem, e, x);
      StemIff(policy, stem, x.(extension := None));
      if x.extension == Some(e) && Reads(policy, stem, x.(extension := None)) {
        ReadStemIsValid(policy, stem, e, x.(extension := None));
      }
    } else if ReadsFile(policy, filename, e, x) {
      assert filename[|filename| - |e|..] == e;
    }
  }

  lemma FormatThenParseFilename(policy: Policy, x: Interpretation)
    requires policy.clean(x.prefix) && IdentityOk(x.identity) && Positive(x.mediaPart)
    requires x.extension.Some? && ExtensionOk(x.extension.value) && Valid(policy, FormatFilename(x))
    ensures x in ParseFilename(policy, FormatFilename(x), x.extension.value)
  {
    FilenameIff(policy, FormatFilename(x), x.extension.value, x);
  }
}
