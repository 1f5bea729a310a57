/**
 The parser returns exactly the interpretations whose formatting is the given text.
*/
module CanonicalInverse {
  import opened Basics
  import opened Numerals
  import opened CanonicalFilename

  // ------------------------------------------------------------- tokens of the grammar

  ghost predicate NoDigitFirst(s: string) {
    s == "" || !IsDigit(s[0])
  }

  lemma {:induction false} DigitRunStops(a: string, rest: string)
    requires AllDigits(a) && NoDigitFirst(rest)
    ensures DigitRun(a + rest) == |a|
  {
    if a == "" {
      assert a + rest == rest;
    } else {
      DigitRunStops(a[1..], rest);
      assert (a + rest)[1..] == a[1..] + rest;
    }
  }

  lemma DropPrefix(a: string, b: string)
    ensures a <= a + b && (a + b)[|a|..] == b
  {
  }

  lemma SplitPrefix(a: string, s: string)
    requires a <= s
    ensures s == a + s[|a|..]
  {
  }

  lemma TokenIsInteger(s: string)
    ensures IntegerToken(s) <==> IsInteger(s)
  {
    if AllDigits(s) {
      DigitRunStops(s, "");
      assert s + "" == s;
    }
  }

  lemma TakeIntegerIff(s: string, n: nat, rest: string)
    ensures TakeInteger(s) == Some((n, rest)) <==> n > 0 && NoDigitFirst(rest) && s == Padded(n) + rest
  {
    if n > 0 && NoDigitFirst(rest) && s == Padded(n) + rest {
      PaddedIsRead(n);
      DigitRunStops(Padded(n), rest);
      assert s[..|Padded(n)|] == Padded(n) && s[|Padded(n)|..] == rest;
      TokenIsInteger(Padded(n));
    }
    if TakeInteger(s) == Some((n, rest)) {
      var token := s[..DigitRun(s)];
      TokenIsInteger(token);
      IntegerIsPadded(token);
      assert s == token + rest;
    }
  }

  lemma TakeMarkedIff(mark: string, s: string, n: Option<nat>, rest: string)
    ensures TakeMarked(mark, s) == Some((n, rest)) <==>
      && Positive(n) && s == Marked(mark, n) + rest
      && (n.Some? ==> NoDigitFirst(rest)) && (n.None? ==> !(mark <= rest))
  {
    if n.Some? {
      if s == Marked(mark, n) + rest {
        assert s == mark + (Padded(n.value) + rest);
        assert s[|mark|..] == Padded(n.value) + rest;
      }
      if mark <= s {
        TakeIntegerIff(s[|mark|..], n.value, rest);
        assert s == mark + s[|mark|..];
        assert mark + (Padded(n.value) + rest) == Marked(mark, n) + rest;
      }
    } else {
      assert Marked(mark, n) + rest == rest;
    }
  }

  lemma TakeMediaIff(s: string, mp: Option<nat>)
    ensures TakeMedia(s) == Some(mp) <==> Positive(mp) && s == Marked("-MP", mp)
  {
    TakeMarkedIff("-MP", s, mp, "");
    assert Marked("-MP", mp) + "" == Marked("-MP", mp);
  }

  // ------------------------------------------------------------------ season and part

  ghost predicate StructureEnds(rest: string) {
    NoDigitFirst(rest) && !("P" <= rest)
  }

  lemma TakeStructureIff(s: string, scope: Scope, rest: string)
    ensures TakeStructure(s) == Some((scope, rest)) <==>
      ScopeOk(scope) && s == Structure(scope) + rest
      && (scope.part.Some? ==> NoDigitFirst(rest)) && (scope.part.None? ==> StructureEnds(rest))
  {
    var tail := Marked("P", scope.part) + rest;
    assert Structure(scope) + rest == "S" + (Padded(scope.season) + tail);
    if "S" <= s {
      assert s == "S" + s[1..];
      TakeIntegerIff(s[1..], scope.season, tail);
      TakeMarkedIff("P", tail, scope.part, rest);
      if TakeStructure(s) == Some((scope, rest)) {
        var mid := TakeInteger(s[1..]).value.1;
        TakeMarkedIff("P", mid, scope.part, rest);
        assert mid == tail;
      }
    }
  }

  lemma MatchScopeIff(s: string, scope: Scope)
    ensures MatchScope(s) == Some(scope) <==> ScopeOk(scope) && s == Structure(scope)
  {
    TakeStructureIff(s, scope, "");
    assert Structure(scope) + "" == Structure(scope);
  }

  lemma EpisodeTail(scope: Scope, episode: nat, mp: Option<nat>)
    ensures Tail(Episode(scope.season, scope.part, episode), mp)
      == Structure(scope) + ("E" + (Padded(episode) + Marked("-MP", mp)))
  {
  }

  lemma MatchesEpisode(s: string, scope: Scope, rest: string, episode: nat, rest': string, mp: Option<nat>)
    requires TakeStructure(s) == Some((scope, rest)) && "E" <= rest
    requires TakeInteger(rest[1..]) == Some((episode, rest')) && TakeMedia(rest') == Some(mp)
    ensures MatchEpisode(s) == Some((scope, episode, mp))
  {
  }

  lemma AfterEpisode(episode: nat, mp: Option<nat>)
    requires episode > 0 && Positive(mp)
    ensures var rest := "E" + (Padded(episode) + Marked("-MP", mp));
      && "E" <= rest && StructureEnds(rest) && TakeInteger(rest[1..]) == Some((episode, Marked("-MP", mp)))
  {
    DropPrefix("E", Padded(episode) + Marked("-MP", mp));
    TakeIntegerIff(Padded(episode) + Marked("-MP", mp), episode, Marked("-MP", mp));
  }

  lemma EpisodeIsMatched(scope: Scope, episode: nat, mp: Option<nat>)
    requires IdentityOk(Episode(scope.season, scope.part, episode)) && Positive(mp)
    ensures MatchEpisode(Tail(Episode(scope.season, scope.part, episode), mp)) == Some((scope, episode, mp))
  {
    var rest := "E" + (Padded(episode) + Marked("-MP", mp));
    EpisodeTail(scope, episode, mp);
    AfterEpisode(episode, mp);
    TakeStructureIff(Structure(scope) + rest, scope, rest);
    TakeMediaIff(Marked("-MP", mp), mp);
    MatchesEpisode(Structure(scope) + rest, scope, rest, episode, Marked("-MP", mp), mp);
  }

  lemma MatchedEpisode(s: string, scope: Scope, episode: nat, mp: Option<nat>)
    requires MatchEpisode(s) == Some((scope, episode, mp))
    ensures IdentityOk(Episode(scope.season, scope.part, episode)) && Positive(mp)
    ensures s == Tail(Episode(scope.season, scope.part, episode), mp)
  {
    var rest1 := TakeStructure(s).value.1;
    TakeStructureIff(s, scope, rest1);
    var rest2 := TakeInteger(rest1[1..]).value.1;
    TakeIntegerIff(rest1[1..], episode, rest2);
    TakeMediaIff(rest2, mp);
    assert rest1 == "E" + rest1[1..];
    EpisodeTail(scope, episode, mp);
  }

  // ------------------------------------------------------------- supplementary content

  // The first characters tell the labels apart, so no label starts another one.
  lemma LabelsDiffer(a: Supplement, b: Supplement)
    requires Label(a)[0] == Label(b)[0] && Label(a)[1] == Label(b)[1]
    requires |Label(a)| > 2 && |Label(b)| > 2 ==> Label(a)[2] == Label(b)[2]
    ensures a == b
  {
    match a
    case Ova => assert Label(a)[1] == 'V';
    case Special => assert Label(a)[0] == 'S';
    case Preview => assert Label(a)[1] == 'r';
    case Op => assert Label(a)[0] == 'O' && Label(a)[1] == 'P';
    case Ed => assert Label(a)[0] == 'E';
    case NcOp => assert Label(a)[0] == 'N' && Label(a)[2] == 'O';
    case NcEd => assert Label(a)[0] == 'N' && Label(a)[2] == 'E';
  }

  lemma LabelsDoNotOverlap(a: Supplement, b: Supplement, rest: string)
    requires Label(a) <= Label(b) + rest
    ensures a == b
  {
    var la, lb := Label(a), Label(b);
    assert forall k :: 0 <= k < |la| ==> la[k] == (lb + rest)[k];
    assert la[0] == lb[0] && la[1] == lb[1];
    LabelsDiffer(a, b);
  }

  lemma {:induction false} MatchLabelIff(s: string, kinds: seq<Supplement>, kind: Supplement, rest: string)
    requires s == Label(kind) + rest
    ensures MatchLabel(s, kinds) == (if kind in kinds then Some(kind) else None)
  {
    if kinds != [] {
      MatchLabelIff(s, kinds[1..], kind, rest);
      if Label(kinds[0]) <= s {
        LabelsDoNotOverlap(kinds[0], kind, rest);
      }
    }
  }

  lemma {:induction false} MatchedLabelStarts(s: string, kinds: seq<Supplement>)
    ensures MatchLabel(s, kinds).Some? ==> Label(MatchLabel(s, kinds).value) <= s
  {
    if kinds != [] {
      MatchedLabelStarts(s, kinds[1..]);
    }
  }

  lemma EveryKind(kind: Supplement)
    ensures kind in KINDS
  {
    assert KINDS[0] == Ova && KINDS[1] == Special && KINDS[2] == Preview && KINDS[3] == Op;
    assert KINDS[4] == Ed && KINDS[5] == NcOp && KINDS[6] == NcEd;
  }

  lemma SupplementaryTail(scope: Option<Scope>, kind: Supplement, ordinal: Option<nat>, mp: Option<nat>)
    ensures Tail(Supplementary(scope, kind, ordinal), mp) == Label(kind) + (Marked(" ", ordinal) + Marked("-MP", mp))
  {
  }

  lemma MatchesSupplementary(
    s: string, kind: Supplement, rest: string, ordinal: Option<nat>, media: string, mp: Option<nat>)
    requires MatchLabel(s, KINDS) == Some(kind) && Label(kind) <= s && s[|Label(kind)|..] == rest
    requires TakeMarked(" ", rest) == Some((ordinal, media)) && TakeMedia(media) == Some(mp)
    ensures MatchSupplementary(s) == Some((kind, ordinal, mp))
  {
  }

  lemma OrdinalIsTaken(ordinal: Option<nat>, mp: Option<nat>)
    requires Positive(ordinal) && Positive(mp)
    ensures TakeMarked(" ", Marked(" ", ordinal) + Marked("-MP", mp)) == Some((ordinal, Marked("-MP", mp)))
  {
    var media := Marked("-MP", mp);
    assert media != "" ==> media[0] == '-';
    assert NoDigitFirst(media) && !(" " <= media);
    TakeMarkedIff(" ", Marked(" ", ordinal) + media, ordinal, media);
  }

  lemma SupplementaryIsMatched(scope: Option<Scope>, kind: Supplement, ordinal: Option<nat>, mp: Option<nat>)
    requires Positive(ordinal) && Positive(mp)
    ensures MatchSupplementary(Tail(Supplementary(scope, kind, ordinal), mp)) == Some((kind, ordinal, mp))
  {
    var media := Marked("-MP", mp);
    var rest := Marked(" ", ordinal) + media;
    SupplementaryTail(scope, kind, ordinal, mp);
    EveryKind(kind);
    MatchLabelIff(Label(kind) + rest, KINDS, kind, rest);
    DropPrefix(Label(kind), rest);
    OrdinalIsTaken(ordinal, mp);
    TakeMediaIff(media, mp);
    MatchesSupplementary(Label(kind) + rest, kind, rest, ordinal, media, mp);
  }

  lemma TakenOrdinal(tail: string, ordinal: Option<nat>, mp: Option<nat>)
    requires TakeMarked(" ", tail).Some? && TakeMarked(" ", tail).value.0 == ordinal
    requires TakeMedia(TakeMarked(" ", tail).value.1) == Some(mp)
    ensures Positive(ordinal) && Positive(mp) && tail == Marked(" ", ordinal) + Marked("-MP", mp)
  {
    var media := TakeMarked(" ", tail).value.1;
    TakeMarkedIff(" ", tail, ordinal, media);
    TakeMediaIff(media, mp);
  }

  lemma MatchedSupplementary(s: string, scope: Option<Scope>, kind: Supplement, ordinal: Option<nat>, mp: Option<nat>)
    requires MatchSupplementary(s) == Some((kind, ordinal, mp))
    ensures Positive(ordinal) && Positive(mp) && s == Tail(Supplementary(scope, kind, ordinal), mp)
  {
    MatchedLabelStarts(s, KINDS);
    SplitPrefix(Label(kind), s);
    TakenOrdinal(s[|Label(kind)|..], ordinal, mp);
    SupplementaryTail(scope, kind, ordinal, mp);
  }

  // ---------------------------------------------------------------------------- recaps

  lemma WholeIsTaken(whole: string, rest: string)
    requires IsWhole(whole) && NoDigitFirst(rest) && !("." <= rest)
    ensures TakeFixed(whole + rest) == Some((Fixed(Value(whole), 0), rest))
  {
    DigitRunStops(whole, rest);
    var s := whole + rest;
    assert s[..|whole|] == whole && s[|whole|..] == rest;
  }

  lemma FractionIsTaken(whole: string, fraction: string, rest: string)
    requires IsWhole(whole) && IsFraction(fraction) && NoDigitFirst(rest)
    ensures AllDigits(whole + fraction)
    ensures TakeFixed(whole + ("." + (fraction + rest))) == Some((Fixed(Value(whole + fraction), |fraction|), rest))
  {
    var after := fraction + rest;
    var dotted := "." + after;
    var s := whole + dotted;
    DigitRunStops(whole, dotted);
    assert s[..|whole|] == whole && s[|whole|..] == dotted;
    assert dotted[1..] == after;
    DigitRunStops(fraction, rest);
    assert after[..|fraction|] == fraction && after[|fraction|..] == rest;
  }

  lemma FixedIsTaken(x: Fixed, rest: string)
    requires Lowest(x) && NoDigitFirst(rest) && !("." <= rest)
    ensures TakeFixed(FixedText(x) + rest) == Some((x, rest))
  {
    if x.scale == 0 {
      FixedIsRead(x);
      WholeIsTaken(FixedText(x), rest);
    } else {
      var whole, fraction := FractionParts(x);
      FractionIsTaken(whole, fraction, rest);
      DottedAppend(whole, fraction, rest);
    }
  }

  lemma DottedAppend(whole: string, fraction: string, rest: string)
    ensures whole + "." + fraction + rest == whole + ("." + (fraction + rest))
  {
  }

  lemma FractionParts(x: Fixed) returns (whole: string, fraction: string)
    requires Lowest(x) && x.scale > 0
    ensures IsWhole(whole) && IsFraction(fraction) && FixedText(x) == whole + "." + fraction
    ensures AllDigits(whole + fraction) && x == Fixed(Value(whole + fraction), |fraction|)
  {
    FixedIsRead(x);
    var d := PaddedTo(Decimal(x.units), x.scale + 1);
    whole, fraction := d[..|d| - x.scale], d[|d| - x.scale..];
  }

  lemma TakenWhole(s: string, n: nat)
    requires n == DigitRun(s) && TakeFixed(s).Some? && !("." <= s[n..])
    ensures TakeFixed(s) == Some((Fixed(Value(s[..n]), 0), s[n..]))
    ensures s[..n] == FixedText(Fixed(Value(s[..n]), 0))
  {
    WholeIsFixed(s[..n]);
  }

  lemma TakenFraction(s: string, n: nat, m: nat)
    requires n == DigitRun(s) && TakeFixed(s).Some? && "." <= s[n..] && m == DigitRun(s[n + 1..])
    ensures AllDigits(s[..n] + s[n + 1..][..m])
    ensures var x := Fixed(Value(s[..n] + s[n + 1..][..m]), m);
      Lowest(x) && TakeFixed(s) == Some((x, s[n + 1..][m..])) && FixedText(x) == s[..n] + "." + s[n + 1..][..m]
  {
    assert s[n..][1..] == s[n + 1..];
    FractionIsFixed(s[..n], s[n + 1..][..m]);
  }

  lemma TextOfFraction(s: string, n: nat, m: nat)
    requires n < |s| && n + 1 + m <= |s| && s[n] == '.'
    ensures s == (s[..n] + "." + s[n + 1..][..m]) + s[n + 1..][m..]
  {
  }

  lemma TakenFixed(s: string)
    requires TakeFixed(s).Some?
    ensures Lowest(TakeFixed(s).value.0) && s == FixedText(TakeFixed(s).value.0) + TakeFixed(s).value.1
  {
    var n := DigitRun(s);
    if "." <= s[n..] {
      var m := DigitRun(s[n + 1..]);
      assert s[n] == s[n..][0] == '.';
      TakenFraction(s, n, m);
      TextOfFraction(s, n, m);
    } else {
      TakenWhole(s, n);
      assert s == s[..n] + s[n..];
    }
  }

  lemma RecapTail(scope: Scope, position: Fixed, mp: Option<nat>)
    ensures Tail(Recap(scope, position), mp) == "Recap " + (FixedText(position) + Marked("-MP", mp))
  {
  }

  lemma MatchesRecap(s: string, rest: string, position: Fixed, media: string, mp: Option<nat>)
    requires "Recap " <= s && s[6..] == rest
    requires TakeFixed(rest) == Some((position, media)) && TakeMedia(media) == Some(mp)
    ensures MatchRecap(s) == Some((position, mp))
  {
  }

  lemma RecapIsMatched(scope: Scope, position: Fixed, mp: Option<nat>)
    requires Lowest(position) && Positive(mp)
    ensures MatchRecap(Tail(Recap(scope, position), mp)) == Some((position, mp))
  {
    var media := Marked("-MP", mp);
    var rest := FixedText(position) + media;
    RecapTail(scope, position, mp);
    DropPrefix("Recap ", rest);
    FixedIsTaken(position, media);
    TakeMediaIff(media, mp);
    MatchesRecap("Recap " + rest, rest, position, media, mp);
  }

  lemma MatchedRecap(s: string, scope: Scope, position: Fixed, mp: Option<nat>)
    requires MatchRecap(s) == Some((position, mp))
    ensures Lowest(position) && Positive(mp) && s == Tail(Recap(scope, position), mp)
  {
    TakenFixed(s[6..]);
    TakeMediaIff(TakeFixed(s[6..]).value.1, mp);
    SplitPrefix("Recap ", s);
    RecapTail(scope, position, mp);
  }

  // ------------------------------------------------------------------ the last separator

  ghost predicate SeparatorAt(s: string, k: nat) {
    k + 3 <= |s| && s[k] == ' ' && s[k + 1] == '-' && s[k + 2] == ' '
  }

  lemma SeparatorSlice(s: string, k: nat)
    requires k + 3 <= |s|
    ensures SeparatorAt(s, k) <==> s[k..k + 3] == SEPARATOR
  {
    assert s[k..k + 3] == [s[k], s[k + 1], s[k + 2]];
  }

  ghost predicate NoSeparatorFrom(s: string, k: nat) {
    forall j: nat :: k <= j ==> !SeparatorAt(s, j)
  }

  lemma {:induction false} RPartitionFinds(s: string)
    ensures RPartition(s).None? ==> NoSeparatorFrom(s, 0)
    ensures RPartition(s).Some? ==> var (a, b) := RPartition(s).value;
      s == a + SEPARATOR + b && SeparatorAt(s, |a|) && NoSeparatorFrom(s, |a| + 1)
    decreases |s|
  {
    if |s| >= 3 {
      SeparatorSlice(s, |s| - 3);
      if s[|s| - 3..] != SEPARATOR {
        var front := s[..|s| - 1];
        assert s == front + [s[|s| - 1]];
        RPartitionFinds(front);
        assert forall j: nat :: j != |s| - 3 ==> SeparatorAt(s, j) == SeparatorAt(front, j);
      }
    }
  }

  lemma RPartitionIs(a: string, b: string)
    requires NoSeparatorFrom(a + SEPARATOR + b, |a| + 1)
    ensures RPartition(a + SEPARATOR + b) == Some((a, b))
  {
    var s := a + SEPARATOR + b;
    RPartitionFinds(s);
    assert SeparatorAt(s, |a|);
    var (a', b') := RPartition(s).value;
    assert |a'| == |a|;
    assert a' == s[..|a|] == a;
    assert b' == s[|a| + 3..] == b;
  }

  // Text that does not start with a hyphen and has no space before a hyphen.
  ghost predicate Plain(b: string) {
    && (b != "" ==> b[0] != '-')
    && forall k :: 0 <= k < |b| - 1 && b[k] == ' ' ==> b[k + 1] != '-'
  }

  lemma PlainEnds(a: string, b: string)
    requires Plain(b)
    ensures NoSeparatorFrom(a + SEPARATOR + b, |a| + 1)
  {
    var s := a + SEPARATOR + b;
    forall j: nat | |a| + 1 <= j
      ensures !SeparatorAt(s, j)
    {
      if j >= |a| + 3 && j + 3 <= |s| {
        assert s[j] == b[j - |a| - 3] && s[j + 1] == b[j - |a| - 2];
      }
    }
  }

  ghost predicate SpaceFree(s: string) {
    forall k :: 0 <= k < |s| ==> s[k] != ' '
  }

  lemma MarkedSpaceFree(mark: string, n: Option<nat>)
    requires Positive(n) && SpaceFree(mark)
    ensures SpaceFree(Marked(mark, n))
  {
    if n.Some? { PaddedIsRead(n.value); }
  }

  lemma StructurePlain(scope: Scope)
    requires ScopeOk(scope)
    ensures SpaceFree(Structure(scope)) && Structure(scope) != "" && Structure(scope)[0] == 'S'
  {
    PaddedIsRead(scope.season);
    MarkedSpaceFree("P", scope.part);
  }

  lemma OneSpacePlain(a: string, b: string)
    requires SpaceFree(a) && a != "" && a[0] != '-' && SpaceFree(b) && b != "" && b[0] != '-'
    ensures Plain(a + " " + b)
  {
    var s := a + " " + b;
    assert forall k :: 0 <= k < |a| ==> s[k] == a[k];
    assert forall k :: |a| < k < |s| ==> s[k] == b[k - |a| - 1];
    assert s[|a| + 1] == b[0];
  }

  lemma FixedTextSpaceFree(x: Fixed)
    requires Lowest(x)
    ensures SpaceFree(FixedText(x)) && FixedText(x) != "" && FixedText(x)[0] != '-'
  {
    FixedIsRead(x);
  }

  lemma EpisodePlain(scope: Scope, episode: nat, mp: Option<nat>)
    requires IdentityOk(Episode(scope.season, scope.part, episode)) && Positive(mp)
    ensures Plain(Tail(Episode(scope.season, scope.part, episode), mp))
  {
    StructurePlain(scope);
    PaddedIsRead(episode);
    MarkedSpaceFree("-MP", mp);
  }

  lemma LabelSpaceFree(kind: Supplement)
    ensures SpaceFree(Label(kind)) && |Label(kind)| >= 2 && Label(kind)[0] != '-'
  {
  }

  lemma SpaceFreeAppended(a: string, b: string)
    requires SpaceFree(a) && SpaceFree(b)
    ensures SpaceFree(a + b)
  {
  }

  lemma NumberSpaceFree(n: nat, mp: Option<nat>)
    requires n > 0 && Positive(mp)
    ensures var number := Padded(n) + Marked("-MP", mp); SpaceFree(number) && number != "" && number[0] != '-'
  {
    PaddedIsRead(n);
    MarkedSpaceFree("-MP", mp);
    SpaceFreeAppended(Padded(n), Marked("-MP", mp));
  }

  lemma SpaceFreePlain(s: string)
    requires SpaceFree(s) && (s != "" ==> s[0] != '-')
    ensures Plain(s)
  {
  }

  lemma OrdinalTail(scope: Option<Scope>, kind: Supplement, n: nat, mp: Option<nat>)
    ensures Tail(Supplementary(scope, kind, Some(n)), mp) == Label(kind) + " " + (Padded(n) + Marked("-MP", mp))
  {
  }

  lemma SupplementaryPlain(scope: Option<Scope>, kind: Supplement, ordinal: Option<nat>, mp: Option<nat>)
    requires Positive(ordinal) && Positive(mp)
    ensures Plain(Tail(Supplementary(scope, kind, ordinal), mp))
  {
    LabelSpaceFree(kind);
    if ordinal.Some? {
      NumberSpaceFree(ordinal.value, mp);
      OrdinalTail(scope, kind, ordinal.value, mp);
      OneSpacePlain(Label(kind), Padded(ordinal.value) + Marked("-MP", mp));
    } else {
      MarkedSpaceFree("-MP", mp);
      SpaceFreeAppended(Label(kind), Marked("-MP", mp));
      assert Tail(Supplementary(scope, kind, None), mp) == Label(kind) + Marked("-MP", mp);
      SpaceFreePlain(Label(kind) + Marked("-MP", mp));
    }
  }

  lemma RecapWord(text: string)
    ensures "Recap " + text == "Recap" + " " + text
  {
  }

  lemma RecapPlain(scope: Scope, position: Fixed, mp: Option<nat>)
    requires Lowest(position) && Positive(mp)
    ensures Plain(Tail(Recap(scope, position), mp))
  {
    var number := FixedText(position) + Marked("-MP", mp);
    MarkedSpaceFree("-MP", mp);
    FixedTextSpaceFree(position);
    SpaceFreeAppended(FixedText(position), Marked("-MP", mp));
    OneSpacePlain("Recap", number);
    RecapTail(scope, position, mp);
    RecapWord(number);
  }

  // The last separator of a formatted stem is the one before its tail.
  lemma TailPlain(i: Identity, mp: Option<nat>)
    requires IdentityOk(i) && Positive(mp)
    ensures Plain(Tail(i, mp))
  {
    match i
    case Episode(s, p, e) => EpisodePlain(Scope(s, p), e, mp);
    case Supplementary(scope, kind, ordinal) => SupplementaryPlain(scope, kind, ordinal, mp);
    case Recap(scope, position) => RecapPlain(scope, position, mp);
  }
}
