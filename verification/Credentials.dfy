/** Scrubbing credentials with a known prefix out of diagnostics. Text is a sequence of bytes; all matching
    is on ASCII letters without regard to case. */
module Credentials {
  import opened Wrappers

  type Text = seq<Byte>

  const UNDERSCORE: Byte := 95
  const DASH: Byte := 45

  /** "[redacted]" */
  const REDACTED: Text := [91, 114, 101, 100, 97, 99, 116, 101, 100, 93]

  datatype Rule = Rule(prefix: Text, minimum: nat)

  /** "github_pat_", "ghp_", "xoxb-", "akia" and "sk-", with the shortest run that counts as a credential. */
  const CREDENTIAL_PREFIXES: seq<Rule> := [
    Rule([103, 105, 116, 104, 117, 98, 95, 112, 97, 116, 95], 20),
    Rule([103, 104, 112, 95], 20),
    Rule([120, 111, 120, 98, 45], 16),
    Rule([97, 107, 105, 97], 16),
    Rule([115, 107, 45], 16)
  ]

  /** The listed rules and the text that replaces a credential. */
  datatype Policy = Policy(rules: seq<Rule>, mark: Text)

  predicate IsAlphanumeric(b: Byte) {
    48 <= b <= 57 || 65 <= b <= 90 || 97 <= b <= 122
  }

  predicate IsRunByte(b: Byte) {
    IsAlphanumeric(b) || b == UNDERSCORE || b == DASH
  }

  function Lower(b: Byte): Byte {
    if 65 <= b <= 90 then b + 32 else b
  }

  function ToLower(text: Text): (lower: Text)
    ensures |lower| == |text|
  {
    seq(|text|, i requires 0 <= i < |text| => Lower(text[i]))
  }

  /** The prefix stands at a position, in either case. */
  predicate Matches(text: Text, at: nat, prefix: Text) {
    at + |prefix| <= |text| && forall i :: 0 <= i < |prefix| ==> Lower(text[at + i]) == prefix[i]
  }

  /** No letter, digit or underscore comes directly before. */
  predicate AtBoundary(text: Text, at: nat)
    requires at <= |text|
  {
    at == 0 || !(IsAlphanumeric(text[at - 1]) || text[at - 1] == UNDERSCORE)
  }

  /** Where the run of token bytes from a position ends. */
  function RunEnd(text: Text, at: nat): (end: nat)
    requires at <= |text|
    ensures at <= end <= |text|
    decreases |text| - at
  {
    if at == |text| || !IsRunByte(text[at]) then at else RunEnd(text, at + 1)
  }

  lemma {:induction false} RunEndIsMaximal(text: Text, at: nat)
    requires at <= |text|
    ensures forall i :: at <= i < RunEnd(text, at) ==> IsRunByte(text[i])
    ensures RunEnd(text, at) < |text| ==> !IsRunByte(text[RunEnd(text, at)])
    decreases |text| - at
  {
    if at < |text| && IsRunByte(text[at]) {
      RunEndIsMaximal(text, at + 1);
    }
  }

  /** A prefix at the start of a token. */
  predicate TokenAt(text: Text, at: nat, prefix: Text) {
    Matches(text, at, prefix) && AtBoundary(text, at)
  }

  /** A credential in the sense of a rule: its prefix at the start of a token, and a run that is long enough. */
  predicate CredentialAt(text: Text, at: nat, rule: Rule) {
    TokenAt(text, at, rule.prefix) && RunEnd(text, at + |rule.prefix|) - at >= rule.minimum
  }

  /** No position before the limit holds a credential of the rule. */
  ghost predicate CleanBefore(text: Text, rule: Rule, limit: int) {
    forall at :: 0 <= at < limit ==> !CredentialAt(text, at, rule)
  }

  ghost predicate Clean(text: Text, rule: Rule) {
    CleanBefore(text, rule, |text|)
  }

  /** A replacement text that no token can run into or out of. */
  predicate IsMark(mark: Text) {
    mark != [] && !IsRunByte(mark[0]) && !IsRunByte(mark[|mark| - 1])
  }

  /** What the table offers of its prefixes: token bytes that start with a letter or digit, a dash at the end
      at most, and no occurrence in the replacement. */
  ghost predicate WellChosen(rule: Rule, policy: Policy) {
    && IsMark(policy.mark)
    && rule.prefix != []
    && IsAlphanumeric(rule.prefix[0])
    && (forall b <- rule.prefix :: IsRunByte(b))
    && (forall i :: 0 <= i < |rule.prefix| - 1 ==> rule.prefix[i] != DASH)
    && (forall k :: 0 <= k < |policy.mark| ==> !Matches(policy.mark, k, rule.prefix))
  }

  lemma TableIsWellChosen(k: nat)
    requires k < |CREDENTIAL_PREFIXES|
    ensures WellChosen(CREDENTIAL_PREFIXES[k], Policy(CREDENTIAL_PREFIXES, REDACTED))
  {
    var prefix := CREDENTIAL_PREFIXES[k].prefix;
    forall at | 0 <= at < |REDACTED|
      ensures !Matches(REDACTED, at, prefix)
    {
      if at + |prefix| <= |REDACTED| {
        assert Lower(REDACTED[at]) == prefix[0] ==> at == 4 && k == 3;
        assert k == 3 ==> Lower(REDACTED[4 + 1]) != prefix[1];
      }
    }
  }

  ghost predicate IsSound(policy: Policy) {
    forall rule <- policy.rules :: WellChosen(rule, policy)
  }

  lemma TableIsSound()
    ensures IsSound(Policy(CREDENTIAL_PREFIXES, REDACTED))
  {
    var policy := Policy(CREDENTIAL_PREFIXES, REDACTED);
    forall k | 0 <= k < |CREDENTIAL_PREFIXES|
      ensures WellChosen(CREDENTIAL_PREFIXES[k], policy)
    {
      TableIsWellChosen(k);
    }
  }

  // ----- What is kept and what is cut -----

  /** A text as kept pieces with the credentials cut out between them. */
  datatype Scrub = Rest(kept: Text) | Cut(kept: Text, removed: Text, rest: Scrub)

  ghost function Original(s: Scrub): Text {
    match s
    case Rest(kept) => kept
    case Cut(kept, removed, rest) => kept + removed + Original(rest)
  }

  ghost function Output(s: Scrub, policy: Policy): Text {
    match s
    case Rest(kept) => kept
    case Cut(kept, removed, rest) => kept + policy.mark + Output(rest, policy)
  }

  /** Nothing but token bytes, with the prefix in front and the required length. */
  predicate IsTokenOf(text: Text, rule: Rule) {
    |text| >= rule.minimum && Matches(text, 0, rule.prefix) && forall b <- text :: IsRunByte(b)
  }

  predicate IsCredential(text: Text, policy: Policy) {
    exists rule <- policy.rules :: IsTokenOf(text, rule)
  }

  ghost predicate StartsOffToken(text: Text) {
    text == [] || !IsRunByte(text[0])
  }

  /** Every removed piece is a credential that starts at a token boundary of the original text. */
  ghost predicate Shaped(s: Scrub, before: Text, policy: Policy) {
    match s
    case Rest(_) => true
    case Cut(kept, removed, rest) =>
      && IsCredential(removed, policy)
      && AtBoundary(before + kept, |before + kept|)
      && StartsOffToken(Output(rest, policy))
      && Shaped(rest, before + kept + removed, policy)
  }

  /** What is removed is a credential, and what follows it in the result starts off a token. */
  ghost predicate Spaced(s: Scrub, policy: Policy) {
    match s
    case Rest(_) => true
    case Cut(_, removed, rest) =>
      IsCredential(removed, policy) && StartsOffToken(Output(rest, policy)) && Spaced(rest, policy)
  }

  /** Whether a token goes on behind the text, given whether one goes on before it. */
  predicate Glued(glued: bool, text: Text) {
    if text == [] then glued else !AtBoundary(text, |text|)
  }

  /** Every removed piece starts at a token boundary of the original text. */
  ghost predicate AtBoundaries(s: Scrub, glued: bool) {
    match s
    case Rest(_) => true
    case Cut(kept, removed, rest) =>
      !Glued(glued, kept) && AtBoundaries(rest, Glued(Glued(glued, kept), removed))
  }

  lemma GluedMore(glued: bool, a: Text, b: Text)
    ensures Glued(Glued(glued, a), b) == Glued(glued, a + b)
  {
    if b == [] {
      assert a + b == a;
    } else {
      assert (a + b)[|a + b| - 1] == b[|b| - 1];
    }
  }

  lemma {:induction false} SpacedAtBoundariesIsShaped(s: Scrub, before: Text, policy: Policy)
    requires Spaced(s, policy) && AtBoundaries(s, Glued(false, before))
    ensures Shaped(s, before, policy)
    decreases s
  {
    if s.Cut? {
      GluedMore(false, before, s.kept);
      GluedMore(false, before + s.kept, s.removed);
      SpacedAtBoundariesIsShaped(s.rest, before + s.kept + s.removed, policy);
    }
  }

  /** The result is the input with credentials replaced, everything else kept in order. */
  ghost predicate IsScrubbed(input: Text, output: Text, policy: Policy) {
    exists s :: Original(s) == input && Output(s, policy) == output && Shaped(s, [], policy)
  }

  /** No prefix starts inside the replacement. */
  lemma NoMatchInReplacement(text: Text, kept: Text, rest: Text, at: nat, rule: Rule, policy: Policy)
    requires text == kept + policy.mark + rest && WellChosen(rule, policy)
    requires |kept| <= at < |kept| + |policy.mark|
    ensures !Matches(text, at, rule.prefix)
  {
    var k := at - |kept|;
    assert forall i :: 0 <= i < |policy.mark| ==> text[|kept| + i] == policy.mark[i];
    if k + |rule.prefix| <= |policy.mark| {
      assert !Matches(policy.mark, k, rule.prefix);
      var i :| 0 <= i < |rule.prefix| && Lower(policy.mark[k + i]) != rule.prefix[i];
      assert text[at + i] == policy.mark[k + i];
    } else if at + |rule.prefix| <= |text| {
      var last := |policy.mark| - 1 - k;
      assert text[at + last] == policy.mark[|policy.mark| - 1];
      assert rule.prefix[last] in rule.prefix;
      assert Lower(text[at + last]) != rule.prefix[last];
    }
  }

  /** A token that follows a replacement starts beyond it. */
  lemma StaysOutOfReplacement(text: Text, kept: Text, rest: Text, start: nat, rule: Rule, policy: Policy)
    requires text == kept + policy.mark + rest
    requires |kept| <= start && Matches(text, start, rule.prefix) && WellChosen(rule, policy)
    requires StartsOffToken(rest)
    ensures start > |kept| + |policy.mark|
  {
    if start < |kept| + |policy.mark| {
      NoMatchInReplacement(text, kept, rest, start, rule, policy);
      assert false;
    }
    if start == |kept| + |policy.mark| {
      assert Lower(text[start + 0]) == rule.prefix[0];
      LowerKeepsRuns(rest[0]);
    }
  }

  lemma LowerKeepsRuns(b: Byte)
    ensures IsRunByte(Lower(b)) == IsRunByte(b)
    ensures IsAlphanumeric(Lower(b)) == IsAlphanumeric(b)
    ensures (Lower(b) == UNDERSCORE) == (b == UNDERSCORE)
    ensures (Lower(b) == DASH) == (b == DASH)
  {
  }

  /** A match in a slice is a match in the text. */
  lemma MatchInSlice(text: Text, start: nat, end: nat, prefix: Text)
    requires start <= end <= |text|
    ensures Matches(text[start..end], 0, prefix) <==> Matches(text, start, prefix) && start + |prefix| <= end
  {
    var token := text[start..end];
    if start + |prefix| <= end {
      forall i | 0 <= i < |prefix|
        ensures Lower(token[i]) == prefix[i] <==> Lower(text[start + i]) == prefix[i]
      {
        assert token[i] == text[start + i];
      }
    }
  }

  /** A whole token of a listed rule stands in the output of a scrub, at a token boundary. */
  ghost predicate CanCut(s: Scrub, start: nat, end: nat, rule: Rule, policy: Policy) {
    && StandsAlone(Output(s, policy), start, end)
    && IsCredential(Output(s, policy)[start..end], policy)
    && Matches(Output(s, policy), start, rule.prefix)
    && (forall i :: start <= i < end ==> IsRunByte(Output(s, policy)[i]))
  }

  /** Token bytes between token boundaries. */
  ghost predicate StandsAlone(output: Text, start: nat, end: nat) {
    && start < end <= |output|
    && IsRunByte(output[start])
    && (end < |output| ==> !IsRunByte(output[end]))
    && AtBoundary(output, start)
  }

  /** A span of the output that lies within one kept piece. */
  ghost predicate Fits(s: Scrub, start: int, end: int, policy: Policy) {
    match s
    case Rest(kept) => 0 <= start <= end <= |kept|
    case Cut(kept, _, rest) =>
      var skipped := |kept| + |policy.mark|;
      0 <= start <= end <= |kept| || Fits(rest, start - skipped, end - skipped, policy)
  }

  /** The scrub with that span cut out as well. */
  ghost function CutOut(s: Scrub, start: int, end: int, policy: Policy): Scrub
    requires Fits(s, start, end, policy)
  {
    match s
    case Rest(kept) => Cut(kept[..start], kept[start..end], Rest(kept[end..]))
    case Cut(kept, removed, rest) =>
      var skipped := |kept| + |policy.mark|;
      if 0 <= start <= end <= |kept| then Cut(kept[..start], kept[start..end], Cut(kept[end..], removed, rest))
      else Cut(kept, removed, CutOut(rest, start - skipped, end - skipped, policy))
  }

  lemma {:induction false} FitsBounds(s: Scrub, start: int, end: int, policy: Policy)
    requires Fits(s, start, end, policy)
    ensures 0 <= start <= end <= |Output(s, policy)|
    decreases s
  {
    if s.Cut? && !(0 <= start <= end <= |s.kept|) {
      var skipped := |s.kept| + |policy.mark|;
      FitsBounds(s.rest, start - skipped, end - skipped, policy);
    }
  }

  lemma {:induction false} CutOutKeepsOriginal(s: Scrub, start: int, end: int, policy: Policy)
    requires Fits(s, start, end, policy)
    ensures Original(CutOut(s, start, end, policy)) == Original(s)
    decreases s
  {
    if s.Rest? {
      assert s.kept == s.kept[..start] + s.kept[start..end] + s.kept[end..];
    } else if 0 <= start <= end <= |s.kept| {
      assert s.kept[..start] + s.kept[start..end] + (s.kept[end..] + s.removed + Original(s.rest))
          == s.kept + s.removed + Original(s.rest);
    } else {
      var skipped := |s.kept| + |policy.mark|;
      CutOutKeepsOriginal(s.rest, start - skipped, end - skipped, policy);
    }
  }

  lemma {:induction false} CutOutReplaces(s: Scrub, start: int, end: int, policy: Policy)
    requires Fits(s, start, end, policy)
    ensures 0 <= start <= end <= |Output(s, policy)|
    ensures Output(CutOut(s, start, end, policy), policy) == Replace(Output(s, policy), start, end, policy)
    decreases s
  {
    FitsBounds(s, start, end, policy);
    if s.Cut? {
      var head, rest := s.kept + policy.mark, Output(s.rest, policy);
      assert Output(s, policy) == head + rest;
      if 0 <= start <= end <= |s.kept| {
        assert (head + rest)[end..] == s.kept[end..] + policy.mark + rest;
      } else {
        CutOutReplaces(s.rest, start - |head|, end - |head|, policy);
        assert (head + rest)[..start] == head + rest[..start - |head|];
        assert (head + rest)[end..] == rest[end - |head|..];
      }
    }
  }

  /** A whole token of a listed rule lies between the replacements. */
  lemma {:induction false} CredentialFits(s: Scrub, start: nat, end: nat, rule: Rule, policy: Policy)
    requires rule in policy.rules && IsSound(policy)
    requires Spaced(s, policy) && CanCut(s, start, end, rule, policy)
    ensures Fits(s, start, end, policy)
    decreases s
  {
    if s.Cut? {
      TokenIsOnOneSide(s, start, end, rule, policy);
      if start >= |s.kept| {
        var skipped := |s.kept| + |policy.mark|;
        CanCutBeyond(s, start, end, rule, policy);
        CredentialFits(s.rest, start - skipped, end - skipped, rule, policy);
      }
    }
  }

  lemma TokenIsOnOneSide(s: Scrub, start: nat, end: nat, rule: Rule, policy: Policy)
    requires WellChosen(rule, policy) && s.Cut? && Spaced(s, policy)
    requires CanCut(s, start, end, rule, policy)
    ensures if start < |s.kept| then end <= |s.kept| else start > |s.kept| + |policy.mark|
  {
    assert Output(s, policy)[|s.kept|] == policy.mark[0];
    if start >= |s.kept| {
      StaysOutOfReplacement(Output(s, policy), s.kept, Output(s.rest, policy), start, rule, policy);
    }
  }

  /** The span of a text behind a head, seen from there. */
  lemma TokenBehind(head: Text, rest: Text, start: nat, end: nat, rule: Rule)
    requires |head| < start < end <= |head + rest| && Matches(head + rest, start, rule.prefix)
    requires forall i :: start <= i < end ==> IsRunByte((head + rest)[i])
    ensures rest[start - |head|..end - |head|] == (head + rest)[start..end]
    ensures Matches(rest, start - |head|, rule.prefix)
    ensures forall i :: start - |head| <= i < end - |head| ==> IsRunByte(rest[i])
  {
    var output := head + rest;
    assert forall i :: 0 <= i < |rest| ==> rest[i] == output[|head| + i];
    forall i | 0 <= i < |rule.prefix|
      ensures Lower(rest[start - |head| + i]) == rule.prefix[i]
    {
      assert rest[start - |head| + i] == output[start + i];
    }
    forall i | start - |head| <= i < end - |head|
      ensures IsRunByte(rest[i])
    {
      assert IsRunByte(output[|head| + i]);
    }
  }

  lemma CanCutBeyond(s: Scrub, start: nat, end: nat, rule: Rule, policy: Policy)
    requires s.Cut? && CanCut(s, start, end, rule, policy)
    requires start > |s.kept| + |policy.mark|
    ensures var skipped := |s.kept| + |policy.mark|;
            CanCut(s.rest, start - skipped, end - skipped, rule, policy)
  {
    var head, rest := s.kept + policy.mark, Output(s.rest, policy);
    assert Output(s, policy) == head + rest;
    TokenBehind(head, rest, start, end, rule);
    assert rest[start - |head| - 1] == (head + rest)[start - 1];
    assert end < |head + rest| ==> rest[end - |head|] == (head + rest)[end];
  }

  /** Behind the first replacement, the token stands just as it does in the rest. */
  lemma StandsAloneBeyond(head: Text, rest: Text, start: nat, end: nat)
    requires StandsAlone(head + rest, start, end)
    requires |head| <= start && StartsOffToken(rest)
    ensures start > |head|
    ensures StandsAlone(rest, start - |head|, end - |head|)
  {
    var output := head + rest;
    assert rest[start - |head|] == output[start];
    assert end < |output| ==> rest[end - |head|] == output[end];
    assert start > |head| ==> rest[start - |head| - 1] == output[start - 1];
  }

  lemma RestStandsAlone(s: Scrub, start: nat, end: nat, policy: Policy)
    requires s.Cut? && StandsAlone(Output(s, policy), start, end)
    requires start >= |s.kept| + |policy.mark| && StartsOffToken(Output(s.rest, policy))
    ensures var skipped := |s.kept| + |policy.mark|;
            start > skipped && StandsAlone(Output(s.rest, policy), start - skipped, end - skipped)
  {
    StandsAloneBeyond(s.kept + policy.mark, Output(s.rest, policy), start, end);
  }

  lemma RestHasToken(s: Scrub, start: nat, end: nat, policy: Policy)
    requires s.Cut? && |s.kept| + |policy.mark| <= start <= end <= |Output(s, policy)|
    ensures var skipped := |s.kept| + |policy.mark|;
            Output(s.rest, policy)[start - skipped..end - skipped] == Output(s, policy)[start..end]
  {
    var head := s.kept + policy.mark;
    assert Output(s, policy) == head + Output(s.rest, policy);
  }

  lemma CutOutBeyond(s: Scrub, start: nat, end: nat, policy: Policy)
    requires s.Cut? && Fits(s, start, end, policy) && end > |s.kept|
    ensures var skipped := |s.kept| + |policy.mark|;
            && start >= skipped && Fits(s.rest, start - skipped, end - skipped, policy)
            && CutOut(s, start, end, policy)
               == Cut(s.kept, s.removed, CutOut(s.rest, start - skipped, end - skipped, policy))
  {
    FitsBounds(s.rest, start - (|s.kept| + |policy.mark|), end - (|s.kept| + |policy.mark|), policy);
  }

  lemma CutOutStartsOffToken(s: Scrub, start: int, end: int, policy: Policy)
    requires Fits(s, start, end, policy) && 0 < start
    requires StartsOffToken(Output(s, policy))
    ensures StartsOffToken(Output(CutOut(s, start, end, policy), policy))
  {
    CutOutReplaces(s, start, end, policy);
    assert Output(CutOut(s, start, end, policy), policy)[0] == Output(s, policy)[0];
  }

  /** Cutting one more credential out of a scrubbed text leaves credentials only, and nothing runs into a
      replacement. */
  lemma {:induction false} CutOutIsSpaced(s: Scrub, start: nat, end: nat, token: Text, policy: Policy)
    requires Fits(s, start, end, policy) && Spaced(s, policy) && IsCredential(token, policy)
    requires StandsAlone(Output(s, policy), start, end) && Output(s, policy)[start..end] == token
    ensures Spaced(CutOut(s, start, end, policy), policy)
    decreases s, 1
  {
    if end <= |s.kept| {
      SplitIsSpaced(s, start, end, token, policy);
    } else {
      var skipped := |s.kept| + |policy.mark|;
      CutOutBeyond(s, start, end, policy);
      CutRestIsSpaced(s, start, end, token, policy);
    }
  }

  lemma {:induction false} CutRestIsSpaced(s: Scrub, start: nat, end: nat, token: Text, policy: Policy)
    requires s.Cut? && Spaced(s.rest, policy) && StartsOffToken(Output(s.rest, policy)) && IsCredential(token, policy)
    requires StandsAlone(Output(s, policy), start, end) && Output(s, policy)[start..end] == token
    requires start >= |s.kept| + |policy.mark|
    requires Fits(s.rest, start - (|s.kept| + |policy.mark|), end - (|s.kept| + |policy.mark|), policy)
    ensures var rest := CutOut(s.rest, start - (|s.kept| + |policy.mark|), end - (|s.kept| + |policy.mark|), policy);
            Spaced(rest, policy) && StartsOffToken(Output(rest, policy))
    decreases s, 0
  {
    var skipped := |s.kept| + |policy.mark|;
    RestStandsAlone(s, start, end, policy);
    RestHasToken(s, start, end, policy);
    CutOutIsSpaced(s.rest, start - skipped, end - skipped, token, policy);
    CutOutStartsOffToken(s.rest, start - skipped, end - skipped, policy);
  }

  lemma SplitIsSpaced(s: Scrub, start: nat, end: nat, token: Text, policy: Policy)
    requires Fits(s, start, end, policy) && Spaced(s, policy) && IsCredential(token, policy) && end <= |s.kept|
    requires StandsAlone(Output(s, policy), start, end) && Output(s, policy)[start..end] == token
    ensures Spaced(CutOut(s, start, end, policy), policy)
  {
    var output, after := Output(s, policy), CutOut(s, start, end, policy).rest;
    assert output[start..end] == s.kept[start..end];
    assert Output(after, policy) == output[end..];
  }

  lemma GluedSplit(glued: bool, kept: Text, start: nat, end: nat)
    requires start <= end <= |kept|
    ensures Glued(Glued(Glued(glued, kept[..start]), kept[start..end]), kept[end..]) == Glued(glued, kept)
  {
    assert kept == kept[..start] + kept[start..end] + kept[end..];
    GluedMore(glued, kept[..start], kept[start..end]);
    GluedMore(glued, kept[..start] + kept[start..end], kept[end..]);
  }

  lemma BoundaryIsNotGlued(glued: bool, kept: Text, tail: Text, start: nat)
    requires start <= |kept| && AtBoundary(kept + tail, start) && (start == 0 ==> !glued)
    ensures !Glued(glued, kept[..start])
  {
    if start > 0 {
      assert (kept + tail)[start - 1] == kept[..start][start - 1];
    }
  }

  lemma SplitAtBoundaries(s: Scrub, glued: bool, start: nat, end: nat, policy: Policy)
    requires start <= end <= |s.kept| && Fits(s, start, end, policy) && AtBoundaries(s, glued)
    requires start <= |Output(s, policy)| && AtBoundary(Output(s, policy), start) && (start == 0 ==> !glued)
    ensures AtBoundaries(CutOut(s, start, end, policy), glued)
  {
    var tail := if s.Rest? then [] else policy.mark + Output(s.rest, policy);
    assert Output(s, policy) == s.kept + tail;
    BoundaryIsNotGlued(glued, s.kept, tail, start);
    GluedSplit(glued, s.kept, start, end);
  }

  /** It was cut out at a token boundary of the original text. */
  lemma {:induction false} CutOutAtBoundaries(s: Scrub, glued: bool, start: nat, end: nat, policy: Policy)
    requires Fits(s, start, end, policy) && Spaced(s, policy) && AtBoundaries(s, glued)
    requires StandsAlone(Output(s, policy), start, end) && (start == 0 ==> !glued)
    ensures AtBoundaries(CutOut(s, start, end, policy), glued)
    decreases s, 1
  {
    if end <= |s.kept| {
      SplitAtBoundaries(s, glued, start, end, policy);
    } else {
      CutOutBeyond(s, start, end, policy);
      CutRestAtBoundaries(s, Glued(Glued(glued, s.kept), s.removed), start, end, policy);
    }
  }

  lemma {:induction false} CutRestAtBoundaries(s: Scrub, glued: bool, start: nat, end: nat, policy: Policy)
    requires s.Cut? && Spaced(s.rest, policy) && StartsOffToken(Output(s.rest, policy)) && AtBoundaries(s.rest, glued)
    requires StandsAlone(Output(s, policy), start, end) && start >= |s.kept| + |policy.mark|
    requires Fits(s.rest, start - (|s.kept| + |policy.mark|), end - (|s.kept| + |policy.mark|), policy)
    ensures var skipped := |s.kept| + |policy.mark|;
            AtBoundaries(CutOut(s.rest, start - skipped, end - skipped, policy), glued)
    decreases s, 0
  {
    var skipped := |s.kept| + |policy.mark|;
    RestStandsAlone(s, start, end, policy);
    CutOutAtBoundaries(s.rest, glued, start - skipped, end - skipped, policy);
  }

  // ----- The loop -----

  predicate Occurs(text: Text, at: nat, pattern: Text) {
    at + |pattern| <= |text| && text[at..at + |pattern|] == pattern
  }

  /** The first position from an offset on at which a pattern occurs. */
  function FindFrom(text: Text, offset: nat, pattern: Text): (found: Option<nat>)
    requires offset <= |text|
    ensures found.Some? ==> offset <= found.value && found.value + |pattern| <= |text|
    decreases |text| - offset
  {
    if Occurs(text, offset, pattern) then Some(offset)
    else if offset == |text| then None
    else FindFrom(text, offset + 1, pattern)
  }

  lemma {:induction false} FindFromIsFirst(text: Text, offset: nat, pattern: Text)
    requires offset <= |text|
    ensures var found := FindFrom(text, offset, pattern);
            if found.None? then forall at :: offset <= at <= |text| ==> !Occurs(text, at, pattern)
            else Occurs(text, found.value, pattern) && forall at :: offset <= at < found.value ==> !Occurs(text, at, pattern)
    decreases |text| - offset
  {
    if !Occurs(text, offset, pattern) && offset < |text| {
      FindFromIsFirst(text, offset + 1, pattern);
    }
  }

  function Replace(text: Text, start: nat, end: nat, policy: Policy): Text
    requires start <= end <= |text|
  {
    text[..start] + policy.mark + text[end..]
  }

  lemma {:induction false} LowerRunEnd(text: Text, at: nat)
    requires at <= |text|
    ensures RunEnd(ToLower(text), at) == RunEnd(text, at)
    decreases |text| - at
  {
    if at < |text| {
      LowerKeepsRuns(text[at]);
      LowerRunEnd(text, at + 1);
    }
  }

  lemma LowerKeepsBoundary(text: Text, at: nat)
    requires at <= |text|
    ensures AtBoundary(ToLower(text), at) == AtBoundary(text, at)
  {
    if at > 0 {
      LowerKeepsRuns(text[at - 1]);
    }
  }

  lemma LowerOccurs(text: Text, at: nat, prefix: Text)
    ensures Occurs(ToLower(text), at, prefix) <==> Matches(text, at, prefix)
  {
    if at + |prefix| <= |text| {
      var slice := ToLower(text)[at..at + |prefix|];
      assert forall i :: 0 <= i < |prefix| ==> slice[i] == Lower(text[at + i]);
    }
  }

  /** The span that the loop replaces is a credential and nothing else. */
  lemma SpanIsToken(text: Text, start: nat, end: nat, rule: Rule, policy: Policy)
    requires WellChosen(rule, policy) && Matches(text, start, rule.prefix)
    requires end == RunEnd(text, start + |rule.prefix|) && end - start >= rule.minimum
    ensures IsTokenOf(text[start..end], rule)
  {
    MatchInSlice(text, start, end, rule.prefix);
    RunEndIsMaximal(text, start + |rule.prefix|);
    forall i | start <= i < end
      ensures IsRunByte(text[i])
    {
      if i < start + |rule.prefix| {
        assert Lower(text[start + (i - start)]) == rule.prefix[i - start] && rule.prefix[i - start] in rule.prefix;
        LowerKeepsRuns(text[i]);
      }
    }
  }

  lemma NothingFound(text: Text, rule: Rule, offset: nat)
    requires offset <= |text|
    requires CleanBefore(text, rule, offset)
    requires FindFrom(ToLower(text), offset, rule.prefix).None?
    ensures Clean(text, rule)
  {
    FindFromIsFirst(ToLower(text), offset, rule.prefix);
    forall at: nat | offset <= at < |text|
      ensures !CredentialAt(text, at, rule)
    {
      LowerOccurs(text, at, rule.prefix);
    }
  }

  lemma FirstFound(text: Text, rule: Rule, offset: nat, start: nat)
    requires offset <= |text|
    requires CleanBefore(text, rule, offset)
    requires FindFrom(ToLower(text), offset, rule.prefix) == Some(start)
    ensures Matches(text, start, rule.prefix)
    ensures CleanBefore(text, rule, start)
  {
    FindFromIsFirst(ToLower(text), offset, rule.prefix);
    LowerOccurs(text, start, rule.prefix);
    forall at: nat | offset <= at < start
      ensures !CredentialAt(text, at, rule)
    {
      LowerOccurs(text, at, rule.prefix);
    }
  }

  /** Passing over a whole prefix that is no credential misses none: no token starts inside a prefix. */
  lemma SkipIsClean(text: Text, rule: Rule, start: nat, policy: Policy)
    requires WellChosen(rule, policy)
    requires Matches(text, start, rule.prefix) && CleanBefore(text, rule, start)
    requires !CredentialAt(text, start, rule)
    ensures CleanBefore(text, rule, start + |rule.prefix|)
  {
    forall at | start < at < start + |rule.prefix|
      ensures !CredentialAt(text, at, rule)
    {
      var i := at - 1 - start;
      assert Lower(text[start + i]) == rule.prefix[i] && rule.prefix[i] in rule.prefix;
      LowerKeepsRuns(text[at - 1]);
    }
  }

  /** A run before a byte that was a token byte and no longer is can only have been longer. */
  lemma {:induction false} RunEndShrinks(text: Text, cut: Text, at: nat, start: nat)
    requires at <= start < |text| && start < |cut|
    requires text[..start] == cut[..start]
    requires !IsRunByte(cut[start])
    ensures RunEnd(cut, at) <= RunEnd(text, at)
    ensures RunEnd(cut, at) <= start
    decreases start - at
  {
    if at < start {
      assert text[at] == text[..start][at] == cut[at];
      RunEndShrinks(text, cut, at + 1, start);
    }
  }

  /** Replacing a token makes no position before it a credential. */
  lemma ReplaceIsCleanBefore(text: Text, rule: Rule, start: nat, end: nat, policy: Policy)
    requires WellChosen(rule, policy)
    requires start < end <= |text|
    requires CleanBefore(text, rule, start)
    ensures CleanBefore(Replace(text, start, end, policy), rule, start + |policy.mark|)
  {
    var cut := Replace(text, start, end, policy);
    assert text[..start] == cut[..start];
    assert cut[start] == policy.mark[0];
    forall at: nat | at < start + |policy.mark|
      ensures !CredentialAt(cut, at, rule)
    {
      if Matches(cut, at, rule.prefix) {
        if start <= at {
          NoMatchInReplacement(cut, text[..start], text[end..], at, rule, policy);
          assert false;
        } else {
          if start < at + |rule.prefix| {
            NoMatchAcross(cut, at, start, rule, policy);
            assert false;
          }
          forall i | 0 <= i < |rule.prefix|
            ensures Lower(text[at + i]) == rule.prefix[i]
          {
            assert text[at + i] == text[..start][at + i] == cut[..start][at + i];
            assert Lower(cut[at + i]) == rule.prefix[i];
          }
          assert Matches(text, at, rule.prefix);
          assert at > 0 ==> text[at - 1] == text[..start][at - 1] == cut[..start][at - 1];
          RunEndShrinks(text, cut, at + |rule.prefix|, start);
          assert !CredentialAt(text, at, rule);
        }
      }
    }
  }

  lemma NoMatchAcross(text: Text, at: nat, limit: nat, rule: Rule, policy: Policy)
    requires WellChosen(rule, policy)
    requires at <= limit < at + |rule.prefix| && limit < |text| && !IsRunByte(text[limit])
    ensures !Matches(text, at, rule.prefix)
  {
    var i := limit - at;
    LowerKeepsRuns(text[limit]);
    assert rule.prefix[i] in rule.prefix;
    assert text[at + i] == text[limit];
    assert at + |rule.prefix| <= |text| ==> Lower(text[at + i]) != rule.prefix[i];
  }

  lemma {:induction false} RunEndMoves(text: Text, cut: Text, at: nat, shift: int)
    requires at <= |text| && 0 <= at + shift && |cut| == |text| + shift
    requires forall i :: at <= i < |text| ==> cut[i + shift] == text[i]
    ensures RunEnd(cut, at + shift) == RunEnd(text, at) + shift
    decreases |text| - at
  {
    if at < |text| {
      assert cut[at + shift] == text[at];
      RunEndMoves(text, cut, at + 1, shift);
    }
  }

  /** A prefix behind the replacement stood at the same place of the text before. */
  lemma MatchMoves(text: Text, cut: Text, at: nat, shift: int, prefix: Text)
    requires at + shift >= 0 && |cut| == |text| + shift
    requires forall i :: at <= i < |text| ==> cut[i + shift] == text[i]
    requires Matches(cut, at + shift, prefix)
    ensures Matches(text, at, prefix)
  {
    forall i | 0 <= i < |prefix|
      ensures Lower(text[at + i]) == prefix[i]
    {
      assert cut[(at + i) + shift] == text[at + i];
      assert Lower(cut[at + shift + i]) == prefix[i];
    }
  }

  lemma BehindIsClean(text: Text, cut: Text, other: Rule, at: nat, shift: int)
    requires 0 < at < |text| && at + shift > 0 && |cut| == |text| + shift
    requires forall i :: at - 1 <= i < |text| ==> cut[i + shift] == text[i]
    requires !CredentialAt(text, at, other)
    ensures !CredentialAt(cut, at + shift, other)
  {
    if Matches(cut, at + shift, other.prefix) {
      MatchMoves(text, cut, at, shift, other.prefix);
      assert cut[(at - 1) + shift] == text[at - 1];
      RunEndMoves(text, cut, at + |other.prefix|, shift);
    }
  }

  /** Replacing a whole token makes no credential of another rule. */
  lemma ReplaceKeepsClean(text: Text, other: Rule, start: nat, end: nat, policy: Policy)
    requires WellChosen(other, policy)
    requires start < end <= |text|
    requires end < |text| ==> !IsRunByte(text[end])
    requires Clean(text, other)
    ensures Clean(Replace(text, start, end, policy), other)
  {
    var cut := Replace(text, start, end, policy);
    var shift := start + |policy.mark| - end;
    ReplaceIsCleanBefore(text, other, start, end, policy);
    assert forall i :: end <= i < |text| ==> cut[i + shift] == text[i];
    forall at: nat | start + |policy.mark| <= at < |cut|
      ensures !CredentialAt(cut, at, other)
    {
      if at - shift == end {
        assert cut[end + shift] == text[end];
        NoMatchAcross(cut, at, at, other, policy);
      } else {
        BehindIsClean(text, cut, other, at - shift, shift);
      }
    }
  }

  /** A text clean of some rule stays clean of it. */
  ghost predicate KeepsClean(input: Text, output: Text, policy: Policy) {
    forall rule <- policy.rules :: Clean(input, rule) ==> Clean(output, rule)
  }

  ghost predicate IsScrubOf(s: Scrub, input: Text, output: Text, policy: Policy) {
    Original(s) == input && Output(s, policy) == output && Spaced(s, policy) && AtBoundaries(s, false)
  }

  /** What a pass has achieved at an offset: no credential before it, no other rule spoilt, and nothing changed
      unless there was a credential. */
  ghost predicate Progress(original: Text, s: Scrub, input: Text, value: Text, rule: Rule, policy: Policy, offset: int) {
    && CleanBefore(value, rule, offset)
    && KeepsClean(input, value, policy)
    && (Clean(input, rule) ==> value == input)
    && IsScrubOf(s, original, value, policy)
  }

  lemma SkipStep(original: Text, s: Scrub, input: Text, value: Text, rule: Rule, policy: Policy, start: nat)
    requires WellChosen(rule, policy) && Matches(value, start, rule.prefix)
    requires Progress(original, s, input, value, rule, policy, start)
    requires !CredentialAt(value, start, rule)
    ensures Progress(original, s, input, value, rule, policy, start + |rule.prefix|)
  {
    SkipIsClean(value, rule, start, policy);
  }

  /** One replacement of the loop. */
  lemma ReplaceStep(original: Text, s: Scrub, input: Text, value: Text, rule: Rule, policy: Policy, start: nat, end: nat)
    returns (cut: Scrub)
    requires rule in policy.rules && IsSound(policy)
    requires CredentialAt(value, start, rule) && end == RunEnd(value, start + |rule.prefix|)
    requires Progress(original, s, input, value, rule, policy, start)
    ensures Progress(original, cut, input, Replace(value, start, end, policy), rule, policy, start + |policy.mark|)
  {
    assert !Clean(value, rule);
    RunEndIsMaximal(value, start + |rule.prefix|);
    SpanIsToken(value, start, end, rule, policy);
    SpanCanBeCut(s, value, rule, policy, start, end);
    CredentialFits(s, start, end, rule, policy);
    CutOutKeepsOriginal(s, start, end, policy);
    CutOutReplaces(s, start, end, policy);
    CutOutIsSpaced(s, start, end, value[start..end], policy);
    CutOutAtBoundaries(s, false, start, end, policy);
    cut := CutOut(s, start, end, policy);
    ReplaceIsCleanBefore(value, rule, start, end, policy);
    forall other | other in policy.rules && Clean(input, other)
      ensures Clean(Replace(value, start, end, policy), other)
    {
      ReplaceKeepsClean(value, other, start, end, policy);
    }
  }

  lemma SpanCanBeCut(s: Scrub, value: Text, rule: Rule, policy: Policy, start: nat, end: nat)
    requires rule in policy.rules && IsSound(policy)
    requires TokenAt(value, start, rule.prefix)
    requires end == RunEnd(value, start + |rule.prefix|)
    requires IsTokenOf(value[start..end], rule)
    requires Output(s, policy) == value
    ensures CanCut(s, start, end, rule, policy)
  {
    var token := value[start..end];
    RunEndIsMaximal(value, start + |rule.prefix|);
    assert IsCredential(token, policy);
    forall i | start <= i < end
      ensures IsRunByte(value[i])
    {
      assert value[i] == token[i - start] && token[i - start] in token;
    }
  }

  /** What the loop does with an occurrence of the prefix: replace it with its run when it is a credential, and
      go on behind. */
  method RedactOccurrence(ghost original: Text, ghost input: Text, text: Text, rule: Rule, policy: Policy, start: nat,
                          ghost scrubIn: Scrub)
    returns (value: Text, offset: nat, ghost scrub: Scrub)
    requires rule in policy.rules && IsSound(policy) && Matches(text, start, rule.prefix)
    requires Progress(original, scrubIn, input, text, rule, policy, start)
    ensures Progress(original, scrub, input, value, rule, policy, offset)
    ensures offset <= |value| && |value| - offset < |text| - start
  {
    value, scrub := text, scrubIn;
    var lower := ToLower(value);
    LowerKeepsBoundary(value, start);
    if !AtBoundary(lower, start) {
      SkipStep(original, scrub, input, value, rule, policy, start);
      offset := start + |rule.prefix|;
      return;
    }
    var end := RunEnd(lower, start + |rule.prefix|);
    LowerRunEnd(value, start + |rule.prefix|);
    if end - start >= rule.minimum {
      scrub := ReplaceStep(original, scrub, input, value, rule, policy, start, end);
      value := Replace(value, start, end, policy);
      offset := start + |policy.mark|;
    } else {
      SkipStep(original, scrub, input, value, rule, policy, start);
      offset := start + |rule.prefix|;
    }
  }

  /** One pass: find the next occurrence from the offset, deal with it, and go on. */
  method RedactPrefixedCredential(input: Text, rule: Rule, policy: Policy, ghost original: Text, ghost scrubIn: Scrub)
    returns (value: Text, ghost scrub: Scrub)
    requires rule in policy.rules && IsSound(policy)
    requires IsScrubOf(scrubIn, original, input, policy)
    ensures Clean(value, rule)
    ensures KeepsClean(input, value, policy)
    ensures Clean(input, rule) ==> value == input
    ensures IsScrubOf(scrub, original, value, policy)
  {
    value, scrub := input, scrubIn;
    var offset := 0;
    while true
      invariant 0 <= offset <= |value|
      invariant Progress(original, scrub, input, value, rule, policy, offset)
      decreases |value| - offset
    {
      var found := FindFrom(ToLower(value), offset, rule.prefix);
      if found.None? {
        NothingFound(value, rule, offset);
        break;
      }
      FirstFound(value, rule, offset, found.value);
      value, offset, scrub := RedactOccurrence(original, input, value, rule, policy, found.value, scrub);
    }
  }

  /** The prefix loop of `redact_secrets`: one pass per rule. */
  method RedactListed(input: Text, policy: Policy) returns (value: Text)
    requires IsSound(policy)
    ensures forall rule <- policy.rules :: Clean(value, rule)
    ensures value == input <==> forall rule <- policy.rules :: Clean(input, rule)
    ensures IsScrubbed(input, value, policy)
  {
    value := input;
    ghost var scrub := Rest(input);
    for k := 0 to |policy.rules|
      invariant forall j :: 0 <= j < k ==> Clean(value, policy.rules[j])
      invariant (forall rule <- policy.rules :: Clean(input, rule)) ==> value == input
      invariant IsScrubOf(scrub, input, value, policy)
    {
      var rule := policy.rules[k];
      assert rule in policy.rules;
      value, scrub := RedactPrefixedCredential(value, rule, policy, input, scrub);
    }
    SpacedAtBoundariesIsShaped(scrub, [], policy);
  }

  /** The same with the table of prefixes and the replacement that the program uses. */
  method RedactPrefixedCredentials(input: Text) returns (value: Text)
    ensures forall rule <- CREDENTIAL_PREFIXES :: Clean(value, rule)
    ensures value == input <==> forall rule <- CREDENTIAL_PREFIXES :: Clean(input, rule)
    ensures IsScrubbed(input, value, Policy(CREDENTIAL_PREFIXES, REDACTED))
  {
    TableIsSound();
    value := RedactListed(input, Policy(CREDENTIAL_PREFIXES, REDACTED));
  }
}
