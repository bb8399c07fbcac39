/** Redaction of log text (internal/participant/log.go). */
module Redaction {
  import opened Text

  const MASK := "[REDACTED]"
  const FINE_GRAINED := "github_pat_"
  const CLASSIC := "ghp_"
  const DELIMITERS := " \t\r\n,;:\"'()[]{}"

  ghost predicate Absent(value: string, part: string) {
    forall j :: !OccursAt(value, part, j)
  }

  /** First occurrence of `part` at or after `from`, or -1. */
  function IndexFrom(value: string, part: string, from: nat): (r: int)
    requires from <= |value| + 1
    ensures r >= 0 ==> from <= r && OccursAt(value, part, r) && forall j :: from <= j < r ==> !OccursAt(value, part, j)
    ensures r < 0 ==> r == -1 && forall j :: from <= j ==> !OccursAt(value, part, j)
    decreases |value| + 1 - from
  {
    if from > |value| then -1
    else if OccursAt(value, part, from) then from
    else IndexFrom(value, part, from + 1)
  }

  function Index(value: string, part: string): (r: int)
    ensures r >= 0 ==> OccursAt(value, part, r) && forall j :: j < r ==> !OccursAt(value, part, j)
    ensures r < 0 ==> r == -1 && Absent(value, part)
  {
    IndexFrom(value, part, 0)
  }

  function ReplaceAll(value: string, part: string): string
    requires part != ""
    decreases |value|
  {
    var i := Index(value, part);
    if i < 0 then value else value[..i] + MASK + ReplaceAll(value[i + |part|..], part)
  }

  /** Where the token that covers `from` ends: at the next delimiter or the end of the text. */
  function TokenEnd(value: string, from: nat): (r: nat)
    requires from <= |value|
    ensures from <= r <= |value|
    ensures forall j :: from <= j < r ==> value[j] !in DELIMITERS
    ensures r < |value| ==> value[r] in DELIMITERS
    decreases |value| - from
  {
    if from < |value| && value[from] !in DELIMITERS then TokenEnd(value, from + 1) else from
  }

  predicate IsTokenPrefix(prefix: string) {
    prefix != "" && forall c :: c in prefix ==> c !in DELIMITERS && c !in MASK
  }

  lemma {:induction false} TokenPrefixes()
    ensures IsTokenPrefix(FINE_GRAINED) && IsTokenPrefix(CLASSIC)
  {
    assert forall c :: c in FINE_GRAINED || c in CLASSIC ==> c == '_' || 'a' <= c <= 'z';
    assert forall c :: c in DELIMITERS || c in MASK ==> !(c == '_' || 'a' <= c <= 'z');
  }

  function MaskTokens(value: string, prefix: string): string
    requires IsTokenPrefix(prefix)
    decreases |value|
  {
    var i := Index(value, prefix);
    if i < 0 then value
    else
      TokenCoversPrefix(value, prefix, i);
      value[..i] + MASK + MaskTokens(value[TokenEnd(value, i)..], prefix)
  }

  lemma {:induction false} TokenCoversPrefix(value: string, prefix: string, i: nat)
    requires IsTokenPrefix(prefix) && OccursAt(value, prefix, i)
    ensures TokenEnd(value, i) >= i + |prefix|
  {
    forall m | i <= m < i + |prefix| ensures value[m] !in DELIMITERS {
      assert value[m] == value[i..i + |prefix|][m - i] == prefix[m - i];
      assert prefix[m - i] in prefix;
    }
  }

  function ReplaceSecrets(value: string, secrets: seq<string>): string
    decreases |secrets|
  {
    if secrets == [] then value
    else ReplaceSecrets(if secrets[0] != "" then ReplaceAll(value, secrets[0]) else value, secrets[1..])
  }

  function Redacted(value: string, secrets: seq<string>): string {
    TokenPrefixes();
    MaskTokens(MaskTokens(ReplaceSecrets(value, secrets), FINE_GRAINED), CLASSIC)
  }

  // ---------------------------------------------------------------------------------------------
  // What is replaced, and by what.

  /** The first occurrence of a secret becomes the mask; the text before it stays, and what follows is treated alike. */
  lemma {:induction false} FirstSecretIsMasked(before: string, secret: string, after: string)
    requires secret != "" && forall j :: j < |before| ==> !OccursAt(before + secret + after, secret, j)
    ensures ReplaceAll(before + secret + after, secret) == before + "[REDACTED]" + ReplaceAll(after, secret)
  {
    var value := before + secret + after;
    assert value[|before|..|before| + |secret|] == secret;
    assert OccursAt(value, secret, |before|);
    assert Index(value, secret) == |before|;
    assert value[..|before|] == before && value[|before| + |secret|..] == after;
  }

  predicate Delimits(c: char) {
    c in {' ', '\t', '\r', '\n', ',', ';', ':', '"', '\'', '(', ')', '[', ']', '{', '}'}
  }

  /** The first token with the prefix becomes the mask as a whole, up to the delimiter that ends it; the text before
      it stays, and what follows is treated alike. */
  lemma {:induction false} FirstTokenIsMasked(before: string, token: string, after: string, prefix: string)
    requires IsTokenPrefix(prefix) && prefix <= token && (forall i :: 0 <= i < |token| ==> !Delimits(token[i]))
    requires after == "" || Delimits(after[0])
    requires forall j :: j < |before| ==> !OccursAt(before + token + after, prefix, j)
    ensures MaskTokens(before + token + after, prefix) == before + "[REDACTED]" + MaskTokens(after, prefix)
  {
    hide IsTokenPrefix, Delimits, TokenEnd;
    var value, from, to := before + token + after, |before|, |before| + |token|;
    assert value[from..from + |prefix|] == token[..|prefix|];
    assert OccursAt(value, prefix, from) && Index(value, prefix) == from;
    forall i | from <= i < to ensures !Delimits(value[i]) {
      assert value[i] == token[i - from];
    }
    TokenEndsAt(value, from, to);
    hide Index, OccursAt;
    assert value[..from] == before && value[to..] == after;
  }

  lemma {:induction false} TokenEndsAt(value: string, from: nat, to: nat)
    requires from <= to <= |value| && forall i :: from <= i < to ==> !Delimits(value[i])
    requires to < |value| ==> Delimits(value[to])
    ensures TokenEnd(value, from) == to
  {
    assert forall c :: Delimits(c) <==> c in DELIMITERS;
    hide TokenEnd, Delimits;
  }

  /** Secrets are masked one after the other, in the order given. */
  lemma {:induction false} SecretsInOrder(value: string, first: seq<string>, rest: seq<string>)
    ensures ReplaceSecrets(value, first + rest) == ReplaceSecrets(ReplaceSecrets(value, first), rest)
    ensures ReplaceSecrets(value, []) == value
    decreases |first|
  {
    if first == [] {
      assert first + rest == rest;
    } else {
      assert (first + rest)[1..] == first[1..] + rest;
      SecretsInOrder(if first[0] != "" then ReplaceAll(value, first[0]) else value, first[1..], rest);
    }
  }

  lemma {:induction false} FirstChar(value: string, part: string, j: int)
    requires part != "" && OccursAt(value, part, j)
    ensures part[0] in part && 0 <= j < |value| && value[j] == part[0]
  {
    assert value[j] == value[j..j + |part|][0];
  }

  lemma {:induction false} TwoChars(value: string, part: string, j: int)
    requires |part| > 1 && OccursAt(value, part, j)
    ensures 0 <= j < |value| - 1 && value[j] == part[0] && value[j + 1] == part[1]
  {
    assert value[j] == value[j..j + |part|][0] && value[j + 1] == value[j..j + |part|][1];
  }

  lemma {:induction false} NoTokenIn(value: string, prefix: string)
    requires IsTokenPrefix(prefix) && forall c :: c in value ==> c in MASK
    ensures MaskTokens(value, prefix) == value
  {
    var i := Index(value, prefix);
    if i >= 0 {
      FirstChar(value, prefix, i);
    }
  }

  /** Fine-grained tokens are masked before classic ones: of one inside the other two masks are left. */
  lemma {:induction false} FineGrainedFirst(token: string)
    requires "github_pat_" <= token && forall i :: 0 <= i < |token| ==> !Delimits(token[i])
    ensures Redacted("ghp_" + token, []) == "[REDACTED][REDACTED]"
  {
    TokenPrefixes();
    hide IsTokenPrefix, Delimits, MaskTokens;
    FineGrainedInside(token);
    ClassicLeft();
    assert "ghp_" + token + "" == "ghp_" + token;
  }

  lemma {:induction false} FineGrainedInside(token: string)
    requires FINE_GRAINED <= token && forall i :: 0 <= i < |token| ==> !Delimits(token[i])
    requires IsTokenPrefix(FINE_GRAINED)
    ensures MaskTokens("ghp_" + token + "", FINE_GRAINED) == "ghp_" + "[REDACTED]"
  {
    hide IsTokenPrefix, Delimits, MaskTokens;
    var value := "ghp_" + token + "";
    forall j | j < 4 ensures !OccursAt(value, FINE_GRAINED, j) {
      if OccursAt(value, FINE_GRAINED, j) {
        TwoChars(value, FINE_GRAINED, j);
      }
    }
    FirstTokenIsMasked("ghp_", token, "", FINE_GRAINED);
    NoTokenIn("", FINE_GRAINED);
  }

  lemma {:induction false} ClassicLeft()
    requires IsTokenPrefix(CLASSIC)
    ensures MaskTokens("ghp_" + "[REDACTED]", CLASSIC) == "[REDACTED][REDACTED]"
  {
    hide IsTokenPrefix, MaskTokens;
    assert forall i :: 0 <= i < 4 ==> CLASSIC[i] in CLASSIC && !Delimits(CLASSIC[i]);
    FirstTokenIsMasked("", "ghp_", "[REDACTED]", CLASSIC);
    NoTokenIn("[REDACTED]", CLASSIC);
    assert "" + "ghp_" + "[REDACTED]" == "ghp_" + "[REDACTED]";
  }

  // ---------------------------------------------------------------------------------------------
  // Nothing can straddle an inserted mask.

  /** No placement of `part` that overlaps the mask agrees with it. */
  ghost predicate Clean(part: string) {
    part != "" &&
    forall k {:trigger Clash(part, k)} :: -|part| < k < |MASK| ==> Clash(part, k)
  }

  ghost predicate Clash(part: string, k: int) {
    exists p :: 0 <= p < |MASK| && 0 <= p - k < |part| && MASK[p] != part[p - k]
  }

  /** An occurrence that overlaps the mask agrees with it. */
  lemma {:induction false} NoClash(a: string, b: string, part: string, j: int)
    requires OccursAt(a + MASK + b, part, j)
    ensures !Clash(part, j - |a|)
  {
    var whole, k := a + MASK + b, j - |a|;
    forall p | 0 <= p < |MASK| && 0 <= p - k < |part| ensures MASK[p] == part[p - k] {
      assert whole[|a| + p] == MASK[p];
      assert whole[j..j + |part|][p - k] == whole[|a| + p];
    }
  }

  lemma {:induction false} OutsideMask(a: string, b: string, part: string, j: int)
    requires Clean(part) && OccursAt(a + MASK + b, part, j)
    ensures OccursAt(a, part, j) || OccursAt(b, part, j - |a| - |MASK|)
  {
    NoClash(a, b, part, j);
    hide Clash;
    var whole, i := a + MASK + b, j - |a| - |MASK|;
    if j + |part| <= |a| {
      assert whole[j..j + |part|] == a[j..j + |part|];
    } else {
      assert whole[j..j + |part|] == b[i..i + |part|];
    }
  }

  lemma {:induction false} AbsentAround(a: string, b: string, part: string)
    requires Clean(part) && Absent(a, part) && Absent(b, part)
    ensures Absent(a + MASK + b, part)
  {
    hide Clean, OccursAt;
    if j :| OccursAt(a + MASK + b, part, j) {
      OutsideMask(a, b, part, j);
    }
  }

  lemma {:induction false} OccursInSlice(value: string, part: string, from: nat, to: nat, j: int)
    requires from <= to <= |value| && OccursAt(value[from..to], part, j)
    ensures OccursAt(value, part, from + j) && from <= from + j && from + j + |part| <= to
  {
    var inner := value[from..to];
    assert j + |part| <= |inner| == to - from;
    forall m | 0 <= m < |part| ensures value[from + j + m] == part[m] {
      assert value[from + j + m] == inner[j + m] == inner[j..j + |part|][m];
    }
  }

  lemma {:induction false} AbsentSlice(value: string, part: string, from: nat, to: nat)
    requires from <= to <= |value|
    requires forall j :: from <= j && j + |part| <= to ==> !OccursAt(value, part, j)
    ensures Absent(value[from..to], part)
  {
    hide OccursAt;
    if j :| OccursAt(value[from..to], part, j) {
      OccursInSlice(value, part, from, to, j);
    }
  }

  // ---------------------------------------------------------------------------------------------
  // Each pass removes its target and brings nothing clean back.

  lemma {:induction false} ReplaceAllKeeps(value: string, part: string, other: string)
    requires part != "" && Clean(other) && Absent(value, other)
    ensures Absent(ReplaceAll(value, part), other)
    decreases |value|
  {
    hide Clean, OccursAt;
    var i := Index(value, part);
    if i >= 0 {
      IndexInside(value, part);
      AbsentSlice(value, other, 0, i);
      AbsentSlice(value, other, i + |part|, |value|);
      Slices(value, i, i + |part|);
      ReplaceAllKeeps(value[i + |part|..], part, other);
      AbsentAround(value[..i], ReplaceAll(value[i + |part|..], part), other);
    }
  }

  lemma {:induction false} IndexInside(value: string, part: string)
    ensures Index(value, part) >= 0 ==> Index(value, part) + |part| <= |value|
  {
  }

  lemma {:induction false} Slices(value: string, i: nat, k: nat)
    requires i <= k <= |value|
    ensures value[0..i] == value[..i] && value[k..|value|] == value[k..]
  {
  }

  lemma {:induction false} ReplaceAllRemoves(value: string, part: string)
    requires Clean(part)
    ensures Absent(ReplaceAll(value, part), part)
    decreases |value|
  {
    hide Clash;
    var i := Index(value, part);
    if i >= 0 {
      AbsentSlice(value, part, 0, i);
      assert value[0..i] == value[..i];
      ReplaceAllRemoves(value[i + |part|..], part);
      AbsentAround(value[..i], ReplaceAll(value[i + |part|..], part), part);
    }
  }

  lemma {:induction false} MaskTokensKeeps(value: string, prefix: string, other: string)
    requires IsTokenPrefix(prefix) && Clean(other) && Absent(value, other)
    ensures Absent(MaskTokens(value, prefix), other)
    decreases |value|
  {
    hide Clean, IsTokenPrefix;
    var i := Index(value, prefix);
    if i >= 0 {
      var end := TokenEnd(value, i);
      TokenCoversPrefix(value, prefix, i);
      PrefixNotEmpty(prefix);
      AbsentSlice(value, other, 0, i);
      AbsentSlice(value, other, end, |value|);
      Slices(value, i, end);
      MaskTokensKeeps(value[end..], prefix, other);
      AbsentAround(value[..i], MaskTokens(value[end..], prefix), other);
    }
  }

  lemma {:induction false} PrefixNotEmpty(prefix: string)
    requires IsTokenPrefix(prefix)
    ensures prefix != ""
  {
  }

  lemma {:induction false} MaskTokensRemoves(value: string, prefix: string)
    requires IsTokenPrefix(prefix)
    ensures Absent(MaskTokens(value, prefix), prefix)
    decreases |value|
  {
    TokenPrefixIsClean(prefix);
    PrefixNotEmpty(prefix);
    hide Clean, IsTokenPrefix;
    var i := Index(value, prefix);
    if i >= 0 {
      var end := TokenEnd(value, i);
      TokenCoversPrefix(value, prefix, i);
      AbsentSlice(value, prefix, 0, i);
      Slices(value, i, end);
      MaskTokensRemoves(value[end..], prefix);
      AbsentAround(value[..i], MaskTokens(value[end..], prefix), prefix);
    }
  }

  lemma {:induction false} TokenPrefixIsClean(prefix: string)
    requires IsTokenPrefix(prefix)
    ensures Clean(prefix)
  {
    forall k | -|prefix| < k < |MASK| ensures Clash(prefix, k) {
      var p := if k < 0 then 0 else k;
      assert prefix[p - k] in prefix && MASK[p] in MASK;
      assert MASK[p] != prefix[p - k];
    }
  }

  lemma {:induction false} SecretsKeep(value: string, secrets: seq<string>, other: string)
    requires Clean(other) && Absent(value, other)
    ensures Absent(ReplaceSecrets(value, secrets), other)
    decreases |secrets|
  {
    hide Clean;
    if secrets != [] {
      if secrets[0] != "" {
        ReplaceAllKeeps(value, secrets[0], other);
      }
      SecretsKeep(if secrets[0] != "" then ReplaceAll(value, secrets[0]) else value, secrets[1..], other);
    }
  }

  lemma {:induction false} SecretsRemove(value: string, secrets: seq<string>, secret: string)
    requires secret in secrets && Clean(secret)
    ensures Absent(ReplaceSecrets(value, secrets), secret)
    decreases |secrets|
  {
    if secrets[0] == secret {
      ReplaceAllRemoves(value, secret);
      SecretsKeep(ReplaceAll(value, secret), secrets[1..], secret);
    } else {
      assert secret in secrets[1..];
      SecretsRemove(if secrets[0] != "" then ReplaceAll(value, secrets[0]) else value, secrets[1..], secret);
    }
  }

  /** Main result: neither token prefix remains, whatever the secrets are, and no clean secret remains,
      in whatever order the secrets come and however they overlap each other. */
  lemma {:induction false} RedactedIsClear(value: string, secrets: seq<string>)
    ensures Absent(Redacted(value, secrets), FINE_GRAINED)
    ensures Absent(Redacted(value, secrets), CLASSIC)
    ensures forall secret :: secret in secrets && Clean(secret) ==> Absent(Redacted(value, secrets), secret)
  {
    TokenPrefixes();
    TokenPrefixIsClean(FINE_GRAINED);
    var plain := ReplaceSecrets(value, secrets);
    var once := MaskTokens(plain, FINE_GRAINED);
    MaskTokensRemoves(plain, FINE_GRAINED);
    MaskTokensKeeps(once, CLASSIC, FINE_GRAINED);
    MaskTokensRemoves(once, CLASSIC);
    forall secret | secret in secrets && Clean(secret)
      ensures Absent(Redacted(value, secrets), secret)
    {
      SecretsRemove(value, secrets, secret);
      MaskTokensKeeps(plain, FINE_GRAINED, secret);
      MaskTokensKeeps(once, CLASSIC, secret);
    }
  }

  lemma {:induction false} NothingToReplace(value: string, secrets: seq<string>)
    requires forall secret :: secret in secrets && secret != "" ==> Absent(value, secret)
    ensures ReplaceSecrets(value, secrets) == value
    decreases |secrets|
  {
    hide Absent;
    if secrets != [] {
      assert secrets[0] in secrets;
      if secrets[0] != "" {
        assert Index(value, secrets[0]) < 0 by { AbsentIndex(value, secrets[0]); }
      }
      NothingToReplace(value, secrets[1..]);
    }
  }

  lemma {:induction false} AbsentIndex(value: string, part: string)
    requires Absent(value, part)
    ensures Index(value, part) < 0
  {
  }

  /** Text without secrets and token prefixes is left exactly as it is. */
  lemma {:induction false} UntouchedWhenClear(value: string, secrets: seq<string>)
    requires Absent(value, FINE_GRAINED) && Absent(value, CLASSIC)
    requires forall secret :: secret in secrets && secret != "" ==> Absent(value, secret)
    ensures Redacted(value, secrets) == value
  {
    hide OccursAt;
    NothingToReplace(value, secrets);
    AbsentIndex(value, FINE_GRAINED);
    AbsentIndex(value, CLASSIC);
  }

  lemma {:induction false} RedactedIdempotent(value: string, secrets: seq<string>)
    requires forall secret :: secret in secrets && secret != "" ==> Clean(secret)
    ensures Redacted(Redacted(value, secrets), secrets) == Redacted(value, secrets)
  {
    hide Redacted, Clean, Absent;
    RedactedIsClear(value, secrets);
    UntouchedWhenClear(Redacted(value, secrets), secrets);
  }

  // ---------------------------------------------------------------------------------------------
  // Which secrets are clean.

  ghost predicate BracketFree(s: string) {
    '[' !in s && ']' !in s
  }

  /** Without brackets a secret is clean unless it is a piece of the word in the mask. */
  lemma {:induction false} CleanWithoutBrackets(secret: string)
    requires secret != "" && BracketFree(secret) && !Contains("REDACTED", secret)
    ensures Clean(secret)
  {
    forall k | -|secret| < k < |MASK| ensures Clash(secret, k) {
      if k <= 0 {
        assert MASK[0] == '[' && secret[0 - k] in secret;
      } else if k + |secret| >= |MASK| {
        assert MASK[9] == ']' && secret[9 - k] in secret;
      } else {
        var q := MaskDiffers(secret, k);
        assert MASK[k + q] != secret[q];
      }
    }
  }

  lemma {:induction false} MaskDiffers(secret: string, k: int) returns (q: nat)
    requires 0 < k && k + |secret| < |MASK| && !Contains("REDACTED", secret)
    ensures q < |secret| && MASK[k + q] != secret[q]
  {
    var word, at := MASK[1..9], k - 1;
    assert word == "REDACTED";
    assert !OccursAt(word, secret, at);
    q := FirstDifference(word[at..at + |secret|], secret);
    assert word[at..at + |secret|][q] == word[at + q] == MASK[k + q];
  }

  lemma {:induction false} FirstDifference(a: string, b: string) returns (q: nat)
    requires |a| == |b| && a != b
    ensures q < |a| && a[q] != b[q]
  {
    q :| 0 <= q < |a| && a[q] != b[q];
  }

  /** For bracket-free secrets that is the exact condition: a secret inside the mask's word survives. */
  lemma {:induction false} BracketFreeSecretIff(secret: string)
    requires secret != "" && BracketFree(secret)
    ensures (forall value :: Absent(Redacted(value, [secret]), secret)) <==> !Contains("REDACTED", secret)
  {
    if Contains("REDACTED", secret) {
      MaskSurvives(secret);
      assert !Absent(Redacted(secret, [secret]), secret);
    } else {
      CleanWithoutBrackets(secret);
      forall value ensures Absent(Redacted(value, [secret]), secret) {
        RedactedIsClear(value, [secret]);
        assert secret in [secret];
      }
    }
  }

  lemma {:induction false} MaskSurvives(secret: string)
    requires secret != "" && Contains("REDACTED", secret)
    ensures Redacted(secret, [secret]) == MASK && !Absent(MASK, secret)
  {
    var i :| 0 <= i <= 8 && OccursAt("REDACTED", secret, i);
    assert "REDACTED" == MASK[1..9];
    forall j | 0 <= j < |secret| ensures MASK[i + 1 + j] == secret[j] {
      assert MASK[1..9][i + j] == "REDACTED"[i..i + |secret|][j];
    }
    assert MASK[i + 1..i + 1 + |secret|] == secret;
    assert OccursAt(MASK, secret, i + 1);
    assert OccursAt(secret, secret, 0);
    assert Index(secret, secret) == 0;
    assert secret[|secret|..] == "";
    assert forall j :: !OccursAt("", secret, j);
    assert ReplaceAll("", secret) == "";
    assert ReplaceAll(secret, secret) == MASK;
    assert ReplaceSecrets(secret, [secret]) == MASK;
    TokenPrefixes();
    TokenPrefixIsClean(FINE_GRAINED);
    TokenPrefixIsClean(CLASSIC);
    assert Absent("", FINE_GRAINED) && Absent("", CLASSIC);
    AbsentAround("", "", FINE_GRAINED);
    AbsentAround("", "", CLASSIC);
    assert "" + MASK + "" == MASK;
  }

  /** Brackets matter too: a lone bracket is a secret no redaction can remove. */
  lemma {:induction false} BracketSurvives()
    ensures !Absent(ReplaceAll("[", "["), "[")
  {
    assert OccursAt("[", "[", 0);
    assert Index("[", "[") == 0;
    assert ReplaceAll("[", "[") == "" + MASK + ReplaceAll("", "[");
    assert OccursAt(ReplaceAll("[", "["), "[", 0);
  }

  // ---------------------------------------------------------------------------------------------
  // The loops.

  /** Text in front of which no search can start: it has no occurrence and ends in a mask. */
  ghost predicate Sealed(done: string, prefix: string) {
    Absent(done, prefix) && (done == "" || done[|done| - 1] == ']')
  }

  lemma {:induction false} SealedIndex(done: string, rest: string, prefix: string)
    requires IsTokenPrefix(prefix) && Sealed(done, prefix)
    ensures Index(done + rest, prefix) == if Index(rest, prefix) < 0 then -1 else |done| + Index(rest, prefix)
  {
    var whole := done + rest;
    forall j | OccursAt(whole, prefix, j) ensures OccursAt(rest, prefix, j - |done|) {
      SealedOccurrence(done, rest, prefix, j);
    }
    forall i | OccursAt(rest, prefix, i) ensures OccursAt(whole, prefix, |done| + i) {
      assert whole[|done| + i..|done| + i + |prefix|] == rest[i..i + |prefix|];
    }
  }

  lemma {:induction false} InFront(done: string, rest: string, j: int, n: nat)
    ensures 0 <= j && j + n <= |done| ==> (done + rest)[j..j + n] == done[j..j + n]
  {
  }

  lemma {:induction false} SealedOccurrence(done: string, rest: string, prefix: string, j: int)
    requires IsTokenPrefix(prefix) && Sealed(done, prefix) && OccursAt(done + rest, prefix, j)
    ensures OccursAt(rest, prefix, j - |done|)
  {
    var whole := done + rest;
    assert MASK[9] == ']' && ']' !in prefix;
    forall m | j <= m < j + |prefix| ensures whole[m] != ']' {
      assert whole[m] == whole[j..j + |prefix|][m - j] == prefix[m - j];
      assert prefix[m - j] in prefix;
    }
    assert done != "" ==> whole[|done| - 1] == ']';
    assert !OccursAt(done, prefix, j);
    InFront(done, rest, j, |prefix|);
    if j + |prefix| > |done| {
      assert |done| <= j;
      assert whole[j..j + |prefix|] == rest[j - |done|..j - |done| + |prefix|];
    }
  }

  lemma {:induction false} SealMore(done: string, rest: string, prefix: string, i: nat)
    requires IsTokenPrefix(prefix) && Sealed(done, prefix) && i <= |rest|
    requires i == Index(rest, prefix)
    ensures Sealed(done + rest[..i] + MASK, prefix)
  {
    TokenPrefixIsClean(prefix);
    var a := done + rest[..i];
    SealedIndex(done, rest, prefix);
    AbsentSlice(done + rest, prefix, 0, |a|);
    assert (done + rest)[0..|a|] == a;
    assert Absent("", prefix);
    AbsentAround(a, "", prefix);
    assert a + MASK + "" == a + MASK;
    assert MASK[9] == ']';
  }

  /** Where the first token of the unfinished text lies, seen from the whole text. */
  lemma {:induction false} TokenBounds(done: string, rest: string, prefix: string, start: nat, end: nat)
    requires IsTokenPrefix(prefix) && Sealed(done, prefix)
    requires start == Index(done + rest, prefix) && start <= |done| + |rest|
    requires end == TokenEnd(done + rest, start)
    ensures start == |done| + Index(rest, prefix)
    ensures 0 <= Index(rest, prefix) <= |rest|
    ensures end == |done| + TokenEnd(rest, Index(rest, prefix))
    ensures start < end <= |done| + |rest|
  {
    SealedIndex(done, rest, prefix);
    var i := Index(rest, prefix);
    IndexInside(rest, prefix);
    PrefixNotEmpty(prefix);
    hide Sealed, IsTokenPrefix;
    SameTokenEnd(done, rest, i);
    TokenCoversPrefix(rest, prefix, i);
  }

  lemma {:induction false} MaskFirst(value: string, prefix: string)
    requires IsTokenPrefix(prefix) && Index(value, prefix) >= 0
    ensures var i := Index(value, prefix);
            TokenEnd(value, i) <= |value| &&
            MaskTokens(value, prefix) == value[..i] + MASK + MaskTokens(value[TokenEnd(value, i)..], prefix)
  {
  }

  lemma {:induction false} NextPiece(done: string, rest: string, i: nat, cut: nat)
    requires i <= cut <= |rest|
    ensures (done + rest)[..|done| + i] + MASK + (done + rest)[|done| + cut..] ==
        (done + rest[..i] + MASK) + rest[cut..]
  {
  }

  /** The text so far: a finished part, and a rest whose masking completes the whole. */
  ghost predicate Progress(text: string, value: string, done: string, rest: string, prefix: string)
    requires IsTokenPrefix(prefix)
  {
    value == done + rest && Sealed(done, prefix) && done + MaskTokens(rest, prefix) == MaskTokens(text, prefix)
  }

  lemma {:induction false} ProgressStep(text: string, done: string, rest: string, prefix: string, i: nat, cut: nat)
    requires IsTokenPrefix(prefix)
    requires Progress(text, done + rest, done, rest, prefix)
    requires i == Index(rest, prefix) && i <= cut <= |rest| && cut == TokenEnd(rest, i)
    ensures Progress(text, (done + rest[..i] + MASK) + rest[cut..], done + rest[..i] + MASK, rest[cut..], prefix)
  {
    SealMore(done, rest, prefix, i);
    MaskFirst(rest, prefix);
    Regroup(done, rest[..i], MaskTokens(rest[cut..], prefix));
    hide Sealed, IsTokenPrefix, MaskTokens;
  }

  function Covered(value: string, start: nat, end: nat): string
    requires start <= end <= |value|
  {
    value[..start] + MASK + value[end..]
  }

  /** One turn of the outer loop: covering the token at `start` finishes one more piece. */
  lemma {:induction false} TurnDone(text: string, value: string, done: string, rest: string, prefix: string,
                                    start: nat, end: nat)
    returns (moreDone: string, lessRest: string)
    requires IsTokenPrefix(prefix) && value == done + rest && Progress(text, value, done, rest, prefix)
    requires start == Index(value, prefix) && start <= |value| && end == TokenEnd(value, start)
    ensures start < end <= |value| && |lessRest| < |rest|
    ensures Covered(value, start, end) == moreDone + lessRest
    ensures Progress(text, Covered(value, start, end), moreDone, lessRest, prefix)
  {
    hide Progress, Sealed, IsTokenPrefix, OccursAt, MaskTokens, TokenEnd;
    SealedOf(text, value, done, rest, prefix);
    TokenBounds(done, rest, prefix, start, end);
    var i, cut := start - |done|, end - |done|;
    ProgressStep(text, done, rest, prefix, i, cut);
    NextPiece(done, rest, i, cut);
    moreDone, lessRest := done + rest[..i] + MASK, rest[cut..];
  }

  lemma {:induction false} SealedOf(text: string, value: string, done: string, rest: string, prefix: string)
    requires IsTokenPrefix(prefix) && Progress(text, value, done, rest, prefix)
    ensures Sealed(done, prefix)
  {
  }

  lemma {:induction false} ProgressDone(text: string, value: string, done: string, rest: string, prefix: string)
    requires IsTokenPrefix(prefix) && Progress(text, value, done, rest, prefix) && Index(value, prefix) < 0
    ensures value == MaskTokens(text, prefix)
  {
    SealedIndex(done, rest, prefix);
    NoTokens(rest, prefix);
  }

  /** The inner loop. */
  method FindTokenEnd(value: string, start: nat) returns (end: nat)
    requires start <= |value|
    ensures end == TokenEnd(value, start)
  {
    end := start;
    while end < |value| && value[end] !in " \t\r\n,;:\"'()[]{}"
      invariant start <= end <= |value|
      invariant TokenEnd(value, start) == TokenEnd(value, end)
    {
      end := end + 1;
    }
  }

  method Cover(value: string, start: nat, end: nat) returns (covered: string)
    requires start <= end <= |value|
    ensures covered == Covered(value, start, end)
  {
    covered := value[..start] + "[REDACTED]" + value[end..];
  }

  method MaskPrefix(text: string, prefix: string) returns (value: string)
    requires IsTokenPrefix(prefix)
    ensures value == MaskTokens(text, prefix)
  {
    value := text;
    ghost var done, rest := "", text;
    assert Progress(text, value, done, rest, prefix) by { EmptySealed(prefix); assert done + rest == rest; }
    hide Progress, Sealed, IsTokenPrefix, OccursAt, MaskTokens, TokenEnd, Index, Covered;
    var start := Index(value, prefix);
    while start >= 0
      invariant value == done + rest && Progress(text, value, done, rest, prefix)
      invariant start == Index(value, prefix)
      decreases |rest|
    {
      IndexInside(value, prefix);
      var end := FindTokenEnd(value, start);
      ghost var covered := Covered(value, start, end);
      done, rest := TurnDone(text, value, done, rest, prefix, start, end);
      value := Cover(value, start, end);
      assert value == covered;
      start := Index(value, prefix);
    }
    ProgressDone(text, value, done, rest, prefix);
  }

  lemma {:induction false} Regroup(done: string, x: string, y: string)
    ensures done + (x + MASK + y) == (done + x + MASK) + y
  {
  }

  lemma {:induction false} EmptySealed(prefix: string)
    requires IsTokenPrefix(prefix)
    ensures Sealed("", prefix)
  {
  }

  lemma {:induction false} NoTokens(value: string, prefix: string)
    requires IsTokenPrefix(prefix) && Index(value, prefix) < 0
    ensures MaskTokens(value, prefix) == value
  {
  }

  lemma {:induction false} SameTokenEnd(done: string, rest: string, i: nat)
    requires i <= |rest|
    ensures TokenEnd(done + rest, |done| + i) == |done| + TokenEnd(rest, i)
    decreases |rest| - i
  {
    if i < |rest| && rest[i] !in DELIMITERS {
      SameTokenEnd(done, rest, i + 1);
    }
  }

  method Redact(text: string, secrets: seq<string>) returns (value: string)
    ensures value == Redacted(text, secrets)
  {
    value := text;
    for i := 0 to |secrets|
      invariant ReplaceSecrets(value, secrets[i..]) == ReplaceSecrets(text, secrets)
    {
      if secrets[i] != "" {
        value := ReplaceAll(value, secrets[i]);
      }
    }
    TokenPrefixes();
    value := MaskPrefix(value, "github_pat_");
    value := MaskPrefix(value, "ghp_");
  }
}
