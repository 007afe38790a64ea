/** What counts as a credential, spelled out on bytes: the listed prefixes, and the shortest token behind each. */
module CredentialRules {
  import opened Wrappers
  import opened Credentials

  /** An ASCII string as bytes. */
  function Ascii(text: string): Text {
    seq(|text|, i requires 0 <= i < |text| => if text[i] < 128 as char then text[i] as int else 63)
  }

  lemma SpellsText(text: string, bytes: Text)
    requires |text| == |bytes| && forall i :: 0 <= i < |text| ==> text[i] as int == bytes[i] < 128
    ensures Ascii(text) == bytes
  {
  }

  lemma TableSpellsPrefixes()
    ensures CREDENTIAL_PREFIXES == [
              Rule(Ascii("github_pat_"), 20), Rule(Ascii("ghp_"), 20), Rule(Ascii("xoxb-"), 16),
              Rule(Ascii("akia"), 16), Rule(Ascii("sk-"), 16)
            ]
    ensures REDACTED == Ascii("[redacted]")
  {
    SpellsText("github_pat_", CREDENTIAL_PREFIXES[0].prefix);
    SpellsText("ghp_", CREDENTIAL_PREFIXES[1].prefix);
    SpellsText("xoxb-", CREDENTIAL_PREFIXES[2].prefix);
    SpellsText("akia", CREDENTIAL_PREFIXES[3].prefix);
    SpellsText("sk-", CREDENTIAL_PREFIXES[4].prefix);
    SpellsText("[redacted]", REDACTED);
  }

  /** A letter of either case, a digit, an underscore or a dash. */
  predicate IsTokenByte(b: Byte) {
    || 'A' as int <= b <= 'Z' as int || 'a' as int <= b <= 'z' as int || '0' as int <= b <= '9' as int
    || b == '_' as int || b == '-' as int
  }

  /** The same letter in upper or lower case, or the same other byte. */
  predicate IsCaseOf(b: Byte, lower: Byte) {
    b == lower || ('A' as int <= b <= 'Z' as int && lower == b + 32)
  }

  /** A token with this prefix, of at least this length, that no letter, digit or underscore runs into. */
  ghost predicate HasToken(text: Text, at: nat, end: nat, prefix: Text, minimum: nat) {
    && at + |prefix| <= end <= |text| && end - at >= minimum
    && (forall i :: 0 <= i < |prefix| ==> IsCaseOf(text[at + i], prefix[i]))
    && (forall i :: at + |prefix| <= i < end ==> IsTokenByte(text[i]))
    && (at > 0 ==> !IsTokenByte(text[at - 1]) || text[at - 1] == '-' as int)
  }

  lemma {:induction false} RunEndIsFarthest(text: Text, at: nat, end: nat)
    requires at <= end <= |text| && forall i :: at <= i < end ==> IsRunByte(text[i])
    ensures end <= RunEnd(text, at)
    decreases |text| - at
  {
    if at < end {
      RunEndIsFarthest(text, at + 1, end);
    }
  }

  lemma LowerIsCase(b: Byte, lower: Byte)
    requires !('A' as int <= lower <= 'Z' as int)
    ensures Lower(b) == lower <==> IsCaseOf(b, lower)
  {
  }

  /** A text is clean of a rule exactly when it has no such token, wherever that may begin and end. */
  lemma CleanHasNoToken(text: Text, rule: Rule)
    requires forall b <- rule.prefix :: !('A' as int <= b <= 'Z' as int)
    requires rule.prefix != []
    ensures Clean(text, rule) <==> forall at: nat, end: nat :: !HasToken(text, at, end, rule.prefix, rule.minimum)
  {
    var prefix := rule.prefix;
    forall at: nat, end: nat | HasToken(text, at, end, prefix, rule.minimum)
      ensures CredentialAt(text, at, rule)
    {
      RunEndIsFarthest(text, at + |prefix|, end);
      MatchesIsCase(text, at, prefix);
    }
    forall at: nat | at < |text| && CredentialAt(text, at, rule)
      ensures HasToken(text, at, RunEnd(text, at + |prefix|), prefix, rule.minimum)
    {
      RunEndIsMaximal(text, at + |prefix|);
      MatchesIsCase(text, at, prefix);
    }
  }

  lemma MatchesIsCase(text: Text, at: nat, prefix: Text)
    requires forall b <- prefix :: !('A' as int <= b <= 'Z' as int)
    requires at + |prefix| <= |text|
    ensures Matches(text, at, prefix) <==> forall i :: 0 <= i < |prefix| ==> IsCaseOf(text[at + i], prefix[i])
  {
    forall i | 0 <= i < |prefix|
      ensures Lower(text[at + i]) == prefix[i] <==> IsCaseOf(text[at + i], prefix[i])
    {
      assert prefix[i] in prefix;
      LowerIsCase(text[at + i], prefix[i]);
    }
  }
}
