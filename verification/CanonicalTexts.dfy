/**
 The canonical grammar character by character: which word names a content type, and which texts are
 read as which episode, supplementary content or recap.
*/
module CanonicalTexts {
  import opened Basics
  import opened Numerals
  import opened CanonicalFilename
  import opened CanonicalInverse
  import opened CanonicalRoundTrip

  // ------------------------------------------------------------------------ content types

  // The content types as they are stored.
  function StoredName(kind: Supplement): string {
    match kind
    case Ova => "ova" case Special => "special" case Preview => "preview"
    case Op => "op" case Ed => "ed" case NcOp => "ncop" case NcEd => "nced"
  }

  // Up to the first blank or hyphen.
  function FirstWord(s: string): string {
    if s == "" || s[0] == ' ' || s[0] == '-' then "" else [s[0]] + FirstWord(s[1..])
  }

  function Lower(s: string): string {
    seq(|s|, k requires 0 <= k < |s| => if 'A' <= s[k] <= 'Z' then s[k] - 'A' + 'a' else s[k])
  }

  // `before` and `after` are what the last separator parts.
  ghost predicate PartedLast(stem: string, before: string, after: string) {
    && stem == before + " - " + after
    && forall k :: |before| < k <= |stem| - 3 && stem[k] == ' ' && stem[k + 1] == '-' ==> stem[k + 2] != ' '
  }

  lemma PartedIsFound(stem: string, before: string, after: string)
    requires PartedLast(stem, before, after)
    ensures RPartition(stem) == Some((before, after))
  {
    RPartitionIs(before, after);
  }

  lemma ReadIsParted(policy: Policy, stem: string, before: string, after: string, x: Interpretation)
    requires PartedLast(stem, before, after) && x in ParseStem(policy, stem)
    ensures after == Tail(x.identity, x.mediaPart) && before == Head(x.prefix, x.identity)
  {
    PartedIsFound(stem, before, after);
    AlternativesIff(policy, before, after, x);
  }

  lemma {:induction false} WordStops(word: string, rest: string)
    requires forall k :: 0 <= k < |word| ==> word[k] != ' ' && word[k] != '-'
    requires rest == "" || rest[0] == ' ' || rest[0] == '-'
    ensures FirstWord(word + rest) == word
  {
    if word == "" {
      assert word + rest == rest;
    } else {
      WordStops(word[1..], rest);
      assert (word + rest)[1..] == word[1..] + rest;
    }
  }

  lemma LabelIsLowered(kind: Supplement)
    ensures Lower(Label(kind)) == StoredName(kind)
    ensures forall k :: 0 <= k < |Label(kind)| ==> Label(kind)[k] != ' ' && Label(kind)[k] != '-'
  {
  }

  lemma SuffixWord(i: Identity, mp: Option<nat>)
    requires i.Supplementary?
    ensures Lower(FirstWord(Tail(i, mp))) == StoredName(i.kind)
  {
    var rest := Marked(" ", i.ordinal) + Marked("-MP", mp);
    SupplementaryTail(i.scope, i.kind, i.ordinal, mp);
    LabelIsLowered(i.kind);
    WordStops(Label(i.kind), rest);
  }

  /** The type of every supplementary reading is the word after the last separator, in lower case. */
  lemma TypeIsTheWord(policy: Policy, stem: string, before: string, after: string, x: Interpretation)
    requires PartedLast(stem, before, after) && x in ParseStem(policy, stem) && x.identity.Supplementary?
    ensures Lower(FirstWord(after)) == StoredName(x.identity.kind)
  {
    ReadIsParted(policy, stem, before, after, x);
    SuffixWord(x.identity, x.mediaPart);
  }

  // ------------------------------------------------------------------------- whole texts

  /** The integers of the grammar are written in decimal, with a zero in front of a single digit. */
  lemma IntegersAreDecimal(n: nat)
    ensures n < 10 ==> Padded(n) == ['0', "0123456789"[n]]
    ensures 10 <= n < 100 ==> Padded(n) == ["0123456789"[n / 10], "0123456789"[n % 10]]
    ensures n >= 100 ==> Padded(n) == Padded(n / 10) + ["0123456789"[n % 10]]
  {
    if 10 <= n < 100 {
      assert Decimal(n / 10) == [Digit(n / 10)];
    }
  }

  function SeasonText(season: nat, part: Option<nat>): string {
    "S" + Padded(season) + if part.Some? then "P" + Padded(part.value) else ""
  }

  function MediaText(mp: Option<nat>): string {
    if mp.Some? then "-MP" + Padded(mp.value) else ""
  }

  lemma SeasonIsStructure(season: nat, part: Option<nat>)
    ensures SeasonText(season, part) == Structure(Scope(season, part))
  {
  }

  lemma OnlyReading(policy: Policy, stem: string, x: Interpretation)
    requires x in ParseStem(policy, stem) && !x.identity.Supplementary?
    ensures ParseStem(policy, stem) == [x]
  {
    AtMostTwoReadings(policy, stem);
    var k :| 0 <= k < |ParseStem(policy, stem)| && ParseStem(policy, stem)[k] == x;
  }

  /** S, season, P and part if any, E and episode, -MP and media part if any: read as that episode
      and as nothing else. */
  lemma EpisodeText(
    policy: Policy, stem: string, prefix: string, season: nat, part: Option<nat>, episode: nat, mp: Option<nat>)
    requires policy.clean(prefix) && season > 0 && episode > 0 && (part.Some? ==> part.value > 0) && (mp.Some? ==> mp.value > 0)
    requires Valid(policy, stem) && stem == prefix + " - " + SeasonText(season, part) + "E" + Padded(episode) + MediaText(mp)
    ensures ParseStem(policy, stem) == [Interpretation(prefix, Episode(season, part, episode), mp, None)]
  {
    var x := Interpretation(prefix, Episode(season, part, episode), mp, None);
    EpisodeIsWritten(prefix, season, part, episode, mp);
    StemIff(policy, stem, x);
    OnlyReading(policy, stem, x);
  }

  lemma EpisodeIsWritten(prefix: string, season: nat, part: Option<nat>, episode: nat, mp: Option<nat>)
    ensures FormatStem(Interpretation(prefix, Episode(season, part, episode), mp, None))
      == prefix + " - " + SeasonText(season, part) + "E" + Padded(episode) + MediaText(mp)
  {
    SeasonIsStructure(season, part);
    Regroup(prefix + " - ", SeasonText(season, part), "E", Padded(episode) + MediaText(mp));
    Regroup(prefix + " - ", SeasonText(season, part) + "E", Padded(episode), MediaText(mp));
  }

  lemma Regroup(a: string, b: string, c: string, d: string)
    ensures a + (b + c + d) == a + b + c + d
  {
  }

  /** Season and part, a second separator, the word Recap and a position: read as that recap and as
      nothing else. */
  lemma RecapText(
    policy: Policy, stem: string, prefix: string, season: nat, part: Option<nat>, position: Fixed, mp: Option<nat>)
    requires policy.clean(prefix) && season > 0 && (part.Some? ==> part.value > 0) && (mp.Some? ==> mp.value > 0)
    requires Lowest(position) && position.units > 0 && Valid(policy, stem)
    requires stem == prefix + " - " + SeasonText(season, part) + " - " + "Recap " + FixedText(position) + MediaText(mp)
    ensures ParseStem(policy, stem) == [Interpretation(prefix, Recap(Scope(season, part), position), mp, None)]
  {
    var x := Interpretation(prefix, Recap(Scope(season, part), position), mp, None);
    RecapIsWritten(prefix, season, part, position, mp);
    StemIff(policy, stem, x);
    OnlyReading(policy, stem, x);
  }

  lemma RecapIsWritten(prefix: string, season: nat, part: Option<nat>, position: Fixed, mp: Option<nat>)
    ensures FormatStem(Interpretation(prefix, Recap(Scope(season, part), position), mp, None))
      == prefix + " - " + SeasonText(season, part) + " - " + "Recap " + FixedText(position) + MediaText(mp)
  {
    SeasonIsStructure(season, part);
    Regroup(prefix + " - " + SeasonText(season, part) + " - ", "Recap ", FixedText(position), MediaText(mp));
  }

  function OrdinalText(ordinal: Option<nat>): string {
    if ordinal.Some? then " " + Padded(ordinal.value) else ""
  }

  /** A type's word, a blank and an ordinal if any, a media part if any, behind season and part: read
      as that content of that season and, when the text before the word is sanitizer output as a whole,
      as content of that, and as nothing else. */
  lemma SupplementaryText(
    policy: Policy, stem: string, prefix: string, season: nat, part: Option<nat>, kind: Supplement, word: string,
    ordinal: Option<nat>, mp: Option<nat>)
    requires policy.clean(prefix) && season > 0 && (part.Some? ==> part.value > 0) && (mp.Some? ==> mp.value > 0)
    requires (ordinal.Some? ==> ordinal.value > 0) && word in ["OVA", "Special", "Preview", "OP", "ED", "NCOP", "NCED"]
    requires Lower(word) == StoredName(kind) && Valid(policy, stem)
    requires stem == prefix + " - " + SeasonText(season, part) + " - " + word + OrdinalText(ordinal) + MediaText(mp)
    ensures var scoped := prefix + " - " + SeasonText(season, part);
      ParseStem(policy, stem) == [Interpretation(prefix, Supplementary(Some(Scope(season, part)), kind, ordinal), mp, None)]
        + if policy.clean(scoped) then [Interpretation(scoped, Supplementary(None, kind, ordinal), mp, None)] else []
  {
    var scoped := prefix + " - " + SeasonText(season, part);
    WordIsLabel(kind, word);
    SupplementIsWritten(prefix, season, part, kind, ordinal, mp);
    var x := Interpretation(prefix, Supplementary(Some(Scope(season, part)), kind, ordinal), mp, None);
    var y := Interpretation(scoped, Supplementary(None, kind, ordinal), mp, None);
    BothReadings(policy, stem, x, y);
  }

  lemma SupplementIsWritten(
    prefix: string, season: nat, part: Option<nat>, kind: Supplement, ordinal: Option<nat>, mp: Option<nat>)
    ensures var scoped := prefix + " - " + SeasonText(season, part);
      var text := scoped + " - " + Label(kind) + OrdinalText(ordinal) + MediaText(mp);
      && FormatStem(Interpretation(prefix, Supplementary(Some(Scope(season, part)), kind, ordinal), mp, None)) == text
      && FormatStem(Interpretation(scoped, Supplementary(None, kind, ordinal), mp, None)) == text
      && scoped == prefix + SEPARATOR + Structure(Scope(season, part))
  {
    SeasonIsStructure(season, part);
    Regroup(prefix + " - " + SeasonText(season, part) + " - ", Label(kind), OrdinalText(ordinal), MediaText(mp));
  }

  lemma WordIsLabel(kind: Supplement, word: string)
    requires word in ["OVA", "Special", "Preview", "OP", "ED", "NCOP", "NCED"] && Lower(word) == StoredName(kind)
    ensures word == Label(kind)
  {
    assert |Lower(word)| == |word|;
    if |word| == 2 || |word| == 4 {
      assert Lower(word)[0] == StoredName(kind)[0] && Lower(word)[|word| - 2] == StoredName(kind)[|word| - 2];
    } else {
      assert Lower(word)[0] == StoredName(kind)[0];
    }
  }

  lemma BothReadings(policy: Policy, stem: string, x: Interpretation, y: Interpretation)
    requires Valid(policy, stem) && Reads(policy, stem, x) && TwoReadings(x, y) && FormatStem(y) == stem
    ensures ParseStem(policy, stem) == [x] + if policy.clean(y.prefix) then [y] else []
  {
    StemIff(policy, stem, x);
    StemIff(policy, stem, y);
    AtMostTwoReadings(policy, stem);
    OneOrBoth(ParseStem(policy, stem), x, y);
  }

  lemma OneOrBoth(xs: seq<Interpretation>, x: Interpretation, y: Interpretation)
    requires |xs| <= 2 && x in xs && TwoReadings(x, y) && (|xs| == 2 ==> TwoReadings(xs[0], xs[1]))
    ensures xs == [x] + if y in xs then [y] else []
  {
  }

  /** A filename that is read ends in a dot with lower-case letters or digits behind a readable stem,
      and is a portable name: no reserved character or device name, no leading dot, at most 255 bytes. */
  lemma ReadNamesArePortable(policy: Policy, filename: string, e: string, x: Interpretation)
    requires x in ParseFilename(policy, filename, e)
    ensures |e| >= 2 && e[0] == '.' && forall k :: 1 <= k < |e| ==> '0' <= e[k] <= '9' || 'a' <= e[k] <= 'z'
    ensures |filename| > |e| && filename[|filename| - |e|..] == e
    ensures x.extension == Some(e) && x.(extension := None) in ParseStem(policy, filename[..|filename| - |e|])
    ensures filename[0] != '.' && !policy.device(FirstPart(filename)) && Utf8(policy, filename) <= 255
    ensures forall k :: 0 <= k < |filename| ==>
      !policy.invalid(filename[k]) && filename[k] !in ['<', '>', ':', '"', '/', '\\', '|', '?', '*']
  {
    var stem := filename[..|filename| - |e|];
    StemReadingsHaveNoExtension(policy, stem);
    WithExtensionIff(ParseStem(policy, stem), e, x);
  }
}
