/**
 The canonical filename parser as the exact inverse of the formatter.

 The portable-component rules enter through a policy: which prefixes are sanitizer output, which
 characters are logically invalid, how many bytes a character takes, and which first name parts
 are device names.  Everything else is as in the code.
*/
module CanonicalFilename {
  import opened Basics
  import opened Numerals

  datatype Supplement = Ova | Special | Preview | Op | Ed | NcOp | NcEd

  datatype Identity =
    | Episode(season: nat, part: Option<nat>, episode: nat)
    | Supplementary(scope: Option<Scope>, kind: Supplement, ordinal: Option<nat>)
    | Recap(within: Scope, position: Fixed)

  // S01 or S01P02: a part number never stands without its season.
  datatype Scope = Scope(season: nat, part: Option<nat>)

  datatype Interpretation = Interpretation(
    prefix: string, identity: Identity, mediaPart: Option<nat>, extension: Option<string>)

  datatype Policy = Policy(
    clean: string -> bool, invalid: char -> bool, bytes: char -> nat, device: string -> bool)

  // ------------------------------------------------------------------ the formatter

  function Label(kind: Supplement): string {
    match kind
    case Ova => "OVA" case Special => "Special" case Preview => "Preview"
    case Op => "OP" case Ed => "ED" case NcOp => "NCOP" case NcEd => "NCED"
  }

  function Marked(mark: string, n: Option<nat>): string {
    if n.Some? then mark + Padded(n.value) else ""
  }

  function Structure(s: Scope): string {
    "S" + Padded(s.season) + Marked("P", s.part)
  }

  const SEPARATOR := " - "

  // What follows the last separator.
  function Tail(i: Identity, mp: Option<nat>): string {
    match i
    case Episode(s, p, e) => Structure(Scope(s, p)) + "E" + Padded(e) + Marked("-MP", mp)
    case Supplementary(_, kind, ordinal) => Label(kind) + Marked(" ", ordinal) + Marked("-MP", mp)
    case Recap(_, position) => "Recap " + FixedText(position) + Marked("-MP", mp)
  }

  // What precedes it.
  function Head(prefix: string, i: Identity): string {
    match i
    case Supplementary(Some(s), _, _) => prefix + SEPARATOR + Structure(s)
    case Recap(s, _) => prefix + SEPARATOR + Structure(s)
    case _ => prefix
  }

  function FormatStem(x: Interpretation): string {
    Head(x.prefix, x.identity) + SEPARATOR + Tail(x.identity, x.mediaPart)
  }

  function FormatFilename(x: Interpretation): string {
    FormatStem(x) + (if x.extension.Some? then x.extension.value else "")
  }

  // The formatter's own checks on an identity.
  ghost predicate Positive(n: Option<nat>) {
    n.Some? ==> n.value > 0
  }

  ghost predicate ScopeOk(s: Scope) {
    s.season > 0 && Positive(s.part)
  }

  ghost predicate IdentityOk(i: Identity) {
    match i
    case Episode(s, p, e) => ScopeOk(Scope(s, p)) && e > 0
    case Supplementary(s, _, ordinal) => (s.Some? ==> ScopeOk(s.value)) && Positive(ordinal)
    case Recap(s, position) => ScopeOk(s) && Lowest(position) && position.units > 0
  }

  // --------------------------------------------------------- reading the grammar

  function DigitRun(s: string): (n: nat)
    ensures n <= |s| && AllDigits(s[..n]) && (n < |s| ==> !IsDigit(s[n]))
  {
    if s == [] || !IsDigit(s[0]) then 0
    else
      var n := DigitRun(s[1..]);
      assert s[..n + 1] == [s[0]] + s[1..][..n];
      n + 1
  }

  predicate IntegerToken(s: string) {
    && DigitRun(s) == |s| && |s| >= 2
    && (s[0] == '0' ==> |s| == 2 && s[1] != '0')
  }

  // One integer and the rest of the text; the grammar never continues with a digit.
  function TakeInteger(s: string): Option<(nat, string)> {
    var n := DigitRun(s);
    if IntegerToken(s[..n]) then Some((Value(s[..n]), s[n..])) else None
  }

  function TakeMarked(mark: string, s: string): Option<(Option<nat>, string)> {
    if mark <= s then
      match TakeInteger(s[|mark|..])
      case Some((n, rest)) => Some((Some(n), rest))
      case None => None
    else Some((None, s))
  }

  // A trailing optional media part, up to the end of the text.
  function TakeMedia(s: string): Option<Option<nat>> {
    match TakeMarked("-MP", s)
    case Some((mp, rest)) => if rest == "" then Some(mp) else None
    case None => None
  }

  function TakeStructure(s: string): Option<(Scope, string)> {
    if "S" <= s then
      match TakeInteger(s[1..])
      case None => None
      case Some((season, rest)) =>
        match TakeMarked("P", rest)
        case None => None
        case Some((part, rest')) => Some((Scope(season, part), rest'))
    else None
  }

  // _SCOPE.fullmatch
  function MatchScope(s: string): Option<Scope> {
    match TakeStructure(s)
    case Some((scope, rest)) => if rest == "" then Some(scope) else None
    case None => None
  }

  // _EPISODE.fullmatch
  function MatchEpisode(s: string): Option<(Scope, nat, Option<nat>)> {
    match TakeStructure(s)
    case None => None
    case Some((scope, rest)) =>
      if !("E" <= rest) then None
      else
        match TakeInteger(rest[1..])
        case None => None
        case Some((episode, rest')) =>
          match TakeMedia(rest')
          case None => None
          case Some(mp) => Some((scope, episode, mp))
  }

  const KINDS: seq<Supplement> := [Ova, Special, Preview, Op, Ed, NcOp, NcEd]

  // The alternatives of the label group in their order.
  function MatchLabel(s: string, kinds: seq<Supplement>): Option<Supplement> {
    if kinds == [] then None
    else if Label(kinds[0]) <= s then Some(kinds[0])
    else MatchLabel(s, kinds[1..])
  }

  // _SUPPLEMENTARY.fullmatch
  function MatchSupplementary(s: string): Option<(Supplement, Option<nat>, Option<nat>)> {
    match MatchLabel(s, KINDS)
    case None => None
    case Some(kind) =>
      if |Label(kind)| > |s| then None
      else
        match TakeMarked(" ", s[|Label(kind)|..])
        case None => None
        case Some((ordinal, rest)) =>
          match TakeMedia(rest)
          case None => None
          case Some(mp) => Some((kind, ordinal, mp))
  }

  // (?:0|[1-9][0-9]*)(?:\.[0-9]*[1-9])?
  function TakeFixed(s: string): Option<(Fixed, string)> {
    var n := DigitRun(s);
    var whole, rest := s[..n], s[n..];
    if n == 0 || (whole[0] == '0' && n != 1) then None
    else if "." <= rest then
      var m := DigitRun(rest[1..]);
      var fraction := rest[1..][..m];
      if m == 0 || fraction[m - 1] == '0' then None
      else
        DigitsConcatenate(whole, fraction);
        Some((Fixed(Value(whole + fraction), m), rest[1..][m..]))
    else Some((Fixed(Value(whole), 0), rest))
  }

  lemma DigitsConcatenate(a: string, b: string)
    requires AllDigits(a) && AllDigits(b)
    ensures AllDigits(a + b)
  {
  }

  // _RECAP.fullmatch
  function MatchRecap(s: string): Option<(Fixed, Option<nat>)> {
    if !("Recap " <= s) then None
    else
      match TakeFixed(s[6..])
      case None => None
      case Some((position, rest)) =>
        match TakeMedia(rest)
        case None => None
        case Some(mp) => Some((position, mp))
  }

  // str.rpartition(" - ")
  function RPartition(s: string): Option<(string, string)>
    decreases |s|
  {
    if |s| < 3 then None
    else if s[|s| - 3..] == SEPARATOR then Some((s[..|s| - 3], ""))
    else
      match RPartition(s[..|s| - 1])
      case None => None
      case Some((a, b)) => Some((a, b + [s[|s| - 1]]))
  }

  // ------------------------------------------------------------- component policy

  function Utf8(policy: Policy, s: string): nat {
    if s == [] then 0 else policy.bytes(s[0]) + Utf8(policy, s[1..])
  }

  function FirstPart(s: string): string {
    if s == [] || s[0] == '.' then [] else [s[0]] + FirstPart(s[1..])
  }

  const FORBIDDEN := "<>:\"/\\|?*"

  // component_preview(text).valid
  predicate Valid(policy: Policy, s: string) {
    && s != []
    && (forall k :: 0 <= k < |s| ==> !policy.invalid(s[k]) && s[k] !in FORBIDDEN)
    && s[|s| - 1] != ' ' && s[|s| - 1] != '.' && s[0] != '.'
    && !policy.device(FirstPart(s))
    && Utf8(policy, s) <= 255
  }

  // --------------------------------------------------------------------- the parser

  function Before(a: string, b: string): bool {
    if a == [] then b != []
    else if b == [] then false
    else if a[0] != b[0] then a[0] < b[0]
    else Before(a[1..], b[1..])
  }

  // `_result`: at most two alternatives, ordered by prefix.
  function Sorted(xs: seq<Interpretation>): seq<Interpretation>
    requires |xs| <= 2
  {
    if |xs| == 2 && Before(xs[1].prefix, xs[0].prefix) then [xs[1], xs[0]] else xs
  }

  function ScopedPrefix(prefix: string): Option<(string, Scope)> {
    match RPartition(prefix)
    case None => None
    case Some((scopedPrefix, text)) =>
      match MatchScope(text)
      case None => None
      case Some(scope) => Some((scopedPrefix, scope))
  }

  // The readings of a stem split at its last separator.
  function Alternatives(policy: Policy, prefix: string, suffix: string): seq<Interpretation> {
    match MatchEpisode(suffix)
    case Some((scope, episode, mp)) =>
      if policy.clean(prefix) then [Interpretation(prefix, Episode(scope.season, scope.part, episode), mp, None)] else []
    case None =>
      var scoped := ScopedPrefix(prefix);
      match MatchSupplementary(suffix)
      case Some((kind, ordinal, mp)) =>
        Sorted(
          (if policy.clean(prefix) then [Interpretation(prefix, Supplementary(None, kind, ordinal), mp, None)] else [])
          + (if scoped.Some? && policy.clean(scoped.value.0)
             then [Interpretation(scoped.value.0, Supplementary(Some(scoped.value.1), kind, ordinal), mp, None)] else []))
      case None =>
        match MatchRecap(suffix)
        case Some((position, mp)) =>
          if position.units > 0 && scoped.Some? && policy.clean(scoped.value.0)
          then [Interpretation(scoped.value.0, Recap(scoped.value.1, position), mp, None)] else []
        case None => []
  }

  function ParseStem(policy: Policy, stem: string): (alternatives: seq<Interpretation>) {
    if !Valid(policy, stem) then []
    else
      match RPartition(stem)
      case None => []
      case Some((prefix, suffix)) => Alternatives(policy, prefix, suffix)
  }

  predicate ExtensionOk(e: string) {
    |e| >= 2 && e[0] == '.' && forall k :: 1 <= k < |e| ==> IsDigit(e[k]) || 'a' <= e[k] <= 'z'
  }

  function WithExtension(xs: seq<Interpretation>, e: string): seq<Interpretation> {
    seq(|xs|, k requires 0 <= k < |xs| => xs[k].(extension := Some(e)))
  }

  function ParseFilename(policy: Policy, filename: string, e: string): seq<Interpretation> {
    if !ExtensionOk(e) || |filename| < |e| || filename[|filename| - |e|..] != e || !Valid(policy, filename) then []
    else WithExtension(ParseStem(policy, filename[..|filename| - |e|]), e)
  }
}
