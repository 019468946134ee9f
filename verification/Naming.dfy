/** Key Vault certificate names and how they are derived from DNS names (name.go). */
module Naming {
  import opened Outcomes
  import opened Sorting
  import opened Text

  const MAX_VAULT_NAME_LENGTH: nat := 127
  const WILDCARD := "*."
  const WILDCARD_PREFIX := "wildcard-"
  /** The digest suffix is a hyphen and eight hexadecimal digits. */
  const SUFFIX_LENGTH: nat := 9

  predicate IsHex(c: char) {
    IsDigit(c) || 'a' <= c <= 'f'
  }

  ghost predicate IsShortDigest(s: string) {
    |s| == 8 && forall c | c in s :: IsHex(c)
  }

  /** The first eight hexadecimal digits of a SHA-256; the hash itself stays abstract. */
  type ShortDigest = d: string -> string | forall s :: IsShortDigest(d(s)) witness (s: string) => "00000000"

  // ----- Validation -----

  predicate IsNameChar(c: char) {
    IsLetter(c) || IsDigit(c) || c == '-'
  }

  predicate ValidName(name: string) {
    && 1 <= |name| <= MAX_VAULT_NAME_LENGTH
    && IsLetter(name[0])
    && forall i | 0 <= i < |name| :: IsNameChar(name[i])
  }

  /** A legal name, spelt out: 1 to 127 letters, digits and hyphens, a letter first. */
  ghost predicate IsLegal(name: string) {
    && 1 <= |name| <= 127 && (name[0] in UPPER || name[0] in LOWER)
    && forall c | c in name :: c in UPPER || c in LOWER || c in DIGITS || c == '-'
  }

  lemma ValidMeansLegal(name: string)
    ensures ValidName(name) <==> IsLegal(name)
  {
    forall c: char
      ensures IsLetter(c) <==> c in UPPER || c in LOWER
      ensures IsNameChar(c) <==> c in UPPER || c in LOWER || c in DIGITS || c == '-'
    {
      ClassesMean(c);
    }
  }

  method ValidateVaultCertificateName(name: string) returns (r: Option<Error>)
    ensures r == if ValidName(name) then None else Some(InvalidVaultName)
    ensures r.None? <==> IsLegal(name)
  {
    ValidMeansLegal(name);
    if name == "" || |name| > MAX_VAULT_NAME_LENGTH {
      return Some(InvalidVaultName);
    }
    for i := 0 to |name|
      invariant forall k | 0 <= k < i :: IsNameChar(name[k])
      invariant i > 0 ==> IsLetter(name[0])
    {
      var c := name[i];
      if IsLetter(c) {
      } else if c == '-' || IsDigit(c) {
        if i == 0 {
          return Some(InvalidVaultName);
        }
      } else {
        return Some(InvalidVaultName);
      }
    }
    return None;
  }

  // ----- Normal form of a host name -----

  function NormalizeHost(host: string): string {
    TrimSuffix(ToLower(TrimSpace(host)), ".")
  }

  function NormalizeAll(hosts: seq<string>): seq<string> {
    Map(NormalizeHost, hosts)
  }

  /** Normalising takes the white space around a name and one root dot, and makes its letters small. */
  lemma NormalizeMeans(host: string) returns (before: string, body: string, after: string)
    ensures host == before + body + after && Blank(before) && Blank(after)
    ensures body != "" ==> body[0] !in SPACES && body[|body| - 1] !in SPACES
    ensures var h := NormalizeHost(host);
            && |h| == |body| - (if body != "" && body[|body| - 1] == '.' then 1 else 0)
            && forall i | 0 <= i < |h| :: LowersTo(body[i], h[i])
  {
    hide TrimSpace, Lower, LowersTo, Blank, ToLower, TrimSuffix;
    before, after := TrimSpaceMeans(host);
    body := TrimSpace(host);
    LowerThenTrim(body);
  }

  lemma LowerThenTrim(body: string)
    ensures var h := TrimSuffix(ToLower(body), ".");
            && |h| == |body| - (if body != "" && body[|body| - 1] == '.' then 1 else 0)
            && forall i | 0 <= i < |h| :: LowersTo(body[i], h[i])
  {
    hide Lower, LowersTo, ToLower;
    var low := ToLower(body);
    forall i | 0 <= i < |body|
      ensures LowersTo(body[i], low[i])
    {
      LowerMeans(body[i]);
    }
    if body != "" {
      DotsStay(body[|body| - 1]);
      assert low[|low| - 1..] == [low[|low| - 1]];
    }
  }

  lemma DotsStay(c: char)
    ensures Lower(c) == '.' <==> c == '.'
  {
  }

  lemma NormalHostsStay(hosts: seq<string>)
    requires forall h | h in hosts :: NormalizeHost(h) == h
    ensures NormalizeAll(hosts) == hosts
  {
    forall i | 0 <= i < |hosts|
      ensures NormalizeAll(hosts)[i] == hosts[i]
    {
      assert hosts[i] in hosts;
    }
  }

  /** What normalising leaves alone. */
  predicate IsNormal(s: string) {
    && s != "" && !IsSpace(s[0]) && !IsSpace(s[|s| - 1]) && s[|s| - 1] != '.'
    && forall c | c in s :: !IsUpper(c)
  }

  lemma NormalIsFixpoint(s: string)
    requires IsNormal(s)
    ensures NormalizeHost(s) == s
  {
    LowerStays(s);
  }

  /** Normalising is no fixpoint in general: it takes one root dot away, and what is left may end in another or in white space. */
  lemma NormalizingAgainChangesIff(host: string)
    ensures var h := NormalizeHost(host);
            NormalizeHost(h) != h <==> h != "" && (h[|h| - 1] == '.' || IsSpace(h[|h| - 1]))
  {
    var h := NormalizeHost(host);
    NormalizedIsLower(host);
    if h != "" {
      if h[|h| - 1] == '.' || IsSpace(h[|h| - 1]) {
        NormalizingShortens(h);
      } else {
        NormalIsFixpoint(h);
      }
    }
  }

  lemma NormalizingShortens(h: string)
    requires h != "" && (h[|h| - 1] == '.' || IsSpace(h[|h| - 1]))
    ensures |NormalizeHost(h)| < |h|
  {
    hide TrimLeft, TrimRight, IsSpace;
    TrimLeftIsSuffix(h);
    var left := TrimLeft(h, IsSpace);
    var trimmed := TrimRight(left, IsSpace);
    if |trimmed| == |h| {
      assert trimmed == left == h;
      LosesItsDot(h);
    }
  }

  lemma LosesItsDot(h: string)
    requires h != "" && h[|h| - 1] == '.'
    ensures |TrimSuffix(ToLower(h), ".")| < |h|
  {
    assert ToLower(h)[|h| - 1] == '.';
    assert HasSuffix(ToLower(h), ".");
  }

  lemma {:induction false} TrimLeftIsSuffix(s: string)
    ensures HasSuffix(s, TrimLeft(s, IsSpace))
  {
    if s != "" && IsSpace(s[0]) {
      TrimLeftIsSuffix(s[1..]);
      SuffixUndrop(s, TrimLeft(s, IsSpace), 1);
    }
  }

  /** For one, a name written with two root dots. */
  lemma TwoRootDots(host: string)
    requires IsNormal(host)
    ensures NormalizeHost(host + "..") == host + "." && NormalizeHost(host + ".") == host
  {
    hide NormalizeHost;
    LowerStays(host + ".");
    LowerStays(host + "..");
    OneDotLess(host);
    OneDotLess(host + ".");
    assert host + "." + "." == host + "..";
  }

  lemma OneDotLess(s: string)
    ensures TrimSuffix(s + ".", ".") == s
  {
  }

  lemma LowerStays(s: string)
    requires s != "" && !IsSpace(s[0]) && !IsSpace(s[|s| - 1]) && forall c | c in s :: !IsUpper(c)
    ensures NormalizeHost(s) == TrimSuffix(s, ".")
  {
    assert TrimLeft(s, IsSpace) == s && TrimRight(s, IsSpace) == s;
    forall i | 0 <= i < |s|
      ensures ToLower(s)[i] == s[i]
    {
      assert s[i] in s;
    }
    assert ToLower(s) == s;
  }

  lemma NormalizedIsLower(host: string)
    ensures var h := NormalizeHost(host);
            (forall c | c in h :: !IsUpper(c)) && (h != "" ==> !IsSpace(h[0]))
  {
    var left := TrimLeft(host, IsSpace);
    var trimmed := TrimSpace(host);
    assert trimmed <= left;
    var lower := ToLower(trimmed);
    var h := NormalizeHost(host);
    assert h <= lower;
    forall c | c in h
      ensures !IsUpper(c)
    {
      var i :| 0 <= i < |h| && h[i] == c;
      assert h[i] == Lower(trimmed[i]);
    }
  }

  // ----- Derivation -----

  predicate IsHyphen(c: char) {
    c == '-'
  }

  function DisambiguateVaultName(digest: ShortDigest, name: string, seed: string): string {
    var suffix := "-" + digest(seed);
    TrimRight(if |name| + |suffix| > MAX_VAULT_NAME_LENGTH then name[..MAX_VAULT_NAME_LENGTH - |suffix|] else name, IsHyphen) + suffix
  }

  function TruncateWithDigest(digest: ShortDigest, name: string, seed: string): string
    requires |name| > MAX_VAULT_NAME_LENGTH
  {
    var suffix := "-" + digest(seed);
    TrimRight(name[..MAX_VAULT_NAME_LENGTH - |suffix|], IsHyphen) + suffix
  }

  /** The host spelt in the vault's alphabet, before any truncation. */
  function Spelling(host: string): string {
    var name := if WILDCARD <= host then WILDCARD_PREFIX + host[2..] else host;
    var dashed := ReplaceAll(name, '.', '-');
    if dashed != "" && !IsLetter(dashed[0]) then "cert-" + dashed else dashed
  }

  function DeriveVaultCertificateName(digest: ShortDigest, dnsName: string): Result<string> {
    NameOfHost(digest, NormalizeHost(dnsName))
  }

  function NameOfHost(digest: ShortDigest, host: string): Result<string> {
    if host == "" then Err(InvalidHost) else
    var spelling := Spelling(host);
    var name := if |spelling| > MAX_VAULT_NAME_LENGTH then TruncateWithDigest(digest, spelling, host) else spelling;
    if ValidName(name) then Ok(name) else Err(InvalidVaultName)
  }

  /** Whether s is a prefix followed by a text with hyphens for its dots. */
  ghost predicate SpellsOut(s: string, prefix: string, text: string) {
    && |s| == |prefix| + |text| && prefix <= s
    && forall i | 0 <= i < |text| :: s[|prefix| + i] == if text[i] == '.' then '-' else text[i]
  }

  /** Whether kept is what the first n characters of s leave once the hyphens at their end are gone. */
  ghost predicate Clipped(kept: string, s: string, n: nat) {
    && |kept| <= n <= |s| && kept <= s && (kept != "" ==> kept[|kept| - 1] != '-')
    && forall i | |kept| <= i < n :: s[i] == '-'
  }

  lemma ClippedIs(s: string, n: nat)
    requires n <= |s|
    ensures Clipped(TrimRight(s[..n], IsHyphen), s, n)
  {
    var kept := TrimRight(s[..n], IsHyphen);
    forall i | |kept| <= i < n
      ensures s[i] == '-'
    {
      assert IsHyphen(s[..n][i]);
    }
  }

  /**
   What a derived name is: the normalised host with hyphens for its dots, "wildcard-" for a
   leading "*.", and "cert-" before anything else that is no letter; from 128 characters on, the
   first 118 of that, less the hyphens at their end, followed by the digest of the host. It is an
   error when that is not a legal name.
   */
  lemma DerivedNameMeans(digest: ShortDigest, dnsName: string) returns (full: string, kept: string)
    ensures NormalizeHost(dnsName) == "" ==> DeriveVaultCertificateName(digest, dnsName) == Err(InvalidHost)
    ensures var host := NormalizeHost(dnsName); host != "" ==>
              && (if "*." <= host then SpellsOut(full, "wildcard-", host[2..])
                  else SpellsOut(full, if host[0] in UPPER || host[0] in LOWER then "" else "cert-", host))
              && Clipped(kept, full, if |full| > 127 then 118 else 0)
              && var name := if |full| > 127 then kept + ("-" + digest(host)) else full;
                 DeriveVaultCertificateName(digest, dnsName) == if IsLegal(name) then Ok(name) else Err(InvalidVaultName)
  {
    hide NormalizeHost, NameOfHost, SpellsOut, Clipped, IsLegal;
    full, kept := "", "";
    if NormalizeHost(dnsName) != "" {
      kept := NameOfHostMeans(digest, NormalizeHost(dnsName));
      full := Spelling(NormalizeHost(dnsName));
    } else {
      assert NameOfHost(digest, "") == Err(InvalidHost) by {
        NoNameOfNothing(digest);
      }
    }
  }

  lemma NoNameOfNothing(digest: ShortDigest)
    ensures NameOfHost(digest, "") == Err(InvalidHost)
  {
  }

  lemma NameOfHostMeans(digest: ShortDigest, host: string) returns (kept: string)
    requires host != ""
    ensures var full := Spelling(host);
            && (if "*." <= host then SpellsOut(full, "wildcard-", host[2..])
                else SpellsOut(full, if host[0] in UPPER || host[0] in LOWER then "" else "cert-", host))
            && Clipped(kept, full, if |full| > 127 then 118 else 0)
            && var name := if |full| > 127 then kept + ("-" + digest(host)) else full;
               NameOfHost(digest, host) == if IsLegal(name) then Ok(name) else Err(InvalidVaultName)
  {
    hide IsLegal, ValidName, SpellsOut, Clipped, IsLetter, Spelling, TrimRight, IsShortDigest;
    var full := Spelling(host);
    SpellingIs(host);
    ClassesMean(host[0]);
    DigestLength(digest, host);
    kept := if |full| > 127 then TrimRight(full[..118], IsHyphen) else "";
    ClippedNone(full);
    if |full| > 127 {
      ClippedIs(full, 118);
      ValidMeansLegal(kept + ("-" + digest(host)));
    } else {
      ValidMeansLegal(full);
    }
  }

  lemma DigestLength(digest: ShortDigest, seed: string)
    ensures |digest(seed)| == 8
  {
    assert IsShortDigest(digest(seed));
  }

  lemma ClippedNone(s: string)
    ensures Clipped("", s, 0)
  {
  }

  lemma SpellingIs(host: string)
    requires host != ""
    ensures if WILDCARD <= host then SpellsOut(Spelling(host), "wildcard-", host[2..])
            else SpellsOut(Spelling(host), if IsLetter(host[0]) then "" else "cert-", host)
  {
    SpellingSplits(host);
  }

  /** What repair makes of a name: as much of it as fits, less the hyphens at its end, and the digest of the seed. */
  lemma DisambiguatedMeans(digest: ShortDigest, name: string, seed: string) returns (kept: string)
    ensures Clipped(kept, name, if |name| > 118 then 118 else |name|)
    ensures DisambiguateVaultName(digest, name, seed) == kept + ("-" + digest(seed))
  {
    assert IsShortDigest(digest(seed));
    var n := if |name| > 118 then 118 else |name|;
    assert name[..|name|] == name;
    kept := TrimRight(name[..n], IsHyphen);
    ClippedIs(name, n);
  }

  /** What a spelling puts in front of a host's own characters. */
  function SpellingPrefix(host: string): string {
    if WILDCARD <= host then WILDCARD_PREFIX
    else if host != "" && !IsLetter(host[0]) then "cert-"
    else ""
  }

  /** The characters of a host that survive into its derived name. */
  function Retained(host: string): string {
    var body := TrimPrefix(host, WILDCARD);
    var n := |SpellingPrefix(host)|;
    if n + |body| > MAX_VAULT_NAME_LENGTH then body[..MAX_VAULT_NAME_LENGTH - SUFFIX_LENGTH - n] else body
  }

  predicate IsHostChar(c: char) {
    IsNameChar(c) || c == '.'
  }

  ghost predicate AllNameChars(s: string) {
    forall i | 0 <= i < |s| :: IsNameChar(s[i])
  }

  ghost predicate AllHostChars(s: string) {
    forall i | 0 <= i < |s| :: IsHostChar(s[i])
  }

  /**
   Derivation fails only on an empty host, or on one that keeps a character the vault's
   alphabet cannot spell.
   */
  lemma DerivationSucceedsIff(digest: ShortDigest, dnsName: string)
    ensures var host, r := NormalizeHost(dnsName), DeriveVaultCertificateName(digest, dnsName);
            && (r.Ok? <==> host != "" && AllHostChars(Retained(host)))
            && (r.Ok? ==> ValidName(r.value) && |r.value| <= |host| + |WILDCARD_PREFIX| - |WILDCARD|)
  {
    NameOfHostIff(digest, NormalizeHost(dnsName));
  }

  lemma NameOfHostIff(digest: ShortDigest, host: string)
    ensures var r := NameOfHost(digest, host);
            && (r.Ok? <==> host != "" && AllHostChars(Retained(host)))
            && (r.Ok? ==> ValidName(r.value) && |r.value| <= |host| + |WILDCARD_PREFIX| - |WILDCARD|)
  {
    hide Spelling, Retained, ValidName, TruncateWithDigest, AllHostChars, AllNameChars, KeptSpelling;
    if host != "" {
      SpellingIsLegalIff(host);
      NameIsLegalIff(digest, host);
    }
  }

  /** Cut to length or not, a spelling is a legal name exactly when what is kept of it is legal. */
  lemma NameIsLegalIff(digest: ShortDigest, host: string)
    requires host != ""
    ensures var s := Spelling(host);
            var name := if |s| > MAX_VAULT_NAME_LENGTH then TruncateWithDigest(digest, s, host) else s;
            (ValidName(name) <==> AllNameChars(KeptSpelling(host))) && |name| <= |host| + |WILDCARD_PREFIX| - |WILDCARD|
  {
    hide Spelling;
    SpellingSplits(host);
    var s := Spelling(host);
    if |s| > MAX_VAULT_NAME_LENGTH {
      assert IsShortDigest(digest(host));
      CutAndSuffix(s[..MAX_VAULT_NAME_LENGTH - SUFFIX_LENGTH], digest(host));
    }
  }

  lemma SpellingSplits(host: string)
    requires host != ""
    ensures Spelling(host) == SpellingPrefix(host) + ReplaceAll(TrimPrefix(host, WILDCARD), '.', '-')
    ensures IsLetter(Spelling(host)[0])
  {
    if WILDCARD <= host {
      var dashed := ReplaceAll(WILDCARD_PREFIX + host[2..], '.', '-');
      var tail := ReplaceAll(host[2..], '.', '-');
      assert dashed[0] == 'w';
      assert forall i | 0 <= i < |WILDCARD_PREFIX| :: WILDCARD_PREFIX[i] != '.';
      assert dashed == WILDCARD_PREFIX + tail;
    }
  }

  /** What is kept of a spelling. */
  function KeptSpelling(host: string): string {
    var s := Spelling(host);
    if |s| > MAX_VAULT_NAME_LENGTH then s[..MAX_VAULT_NAME_LENGTH - SUFFIX_LENGTH] else s
  }

  /** The kept part of a spelling is legal exactly when the kept part of the host is. */
  lemma SpellingIsLegalIff(host: string)
    requires host != ""
    ensures AllNameChars(KeptSpelling(host)) <==> AllHostChars(Retained(host))
  {
    KeptSpellingSplits(host);
    PrefixIsLegal(host);
    DashedIsLegalIff(Retained(host));
    AllNameCharsAppend(SpellingPrefix(host), ReplaceAll(Retained(host), '.', '-'));
  }

  lemma KeptSpellingSplits(host: string)
    requires host != ""
    ensures KeptSpelling(host) == SpellingPrefix(host) + ReplaceAll(Retained(host), '.', '-')
  {
    SpellingSplits(host);
    var body := TrimPrefix(host, WILDCARD);
    DashedPrefix(body, |Retained(host)|);
    CutAfterPrefix(SpellingPrefix(host), ReplaceAll(body, '.', '-'), |Retained(host)|);
  }

  lemma DashedPrefix(s: string, n: nat)
    requires n <= |s|
    ensures ReplaceAll(s[..n], '.', '-') == ReplaceAll(s, '.', '-')[..n]
  {
  }

  lemma CutAfterPrefix(prefix: string, s: string, n: nat)
    requires n <= |s|
    ensures (prefix + s)[..|prefix| + n] == prefix + s[..n]
  {
  }

  lemma PrefixIsLegal(host: string)
    ensures AllNameChars(SpellingPrefix(host))
  {
  }

  lemma DashedIsLegalIff(s: string)
    ensures AllNameChars(ReplaceAll(s, '.', '-')) <==> AllHostChars(s)
  {
    var dashed := ReplaceAll(s, '.', '-');
    assert forall i | 0 <= i < |s| :: IsNameChar(dashed[i]) <==> IsHostChar(s[i]);
  }

  lemma AllNameCharsAppend(a: string, b: string)
    ensures AllNameChars(a + b) <==> AllNameChars(a) && AllNameChars(b)
  {
    if AllNameChars(a + b) {
      assert forall i | 0 <= i < |a| :: a[i] == (a + b)[i];
      assert forall i | 0 <= i < |b| :: b[i] == (a + b)[|a| + i];
    }
  }

  /** A name trimmed of hyphens and given a digest is valid when the name was made of valid characters. */
  lemma CutAndSuffix(cut: string, digest: string)
    requires IsShortDigest(digest)
    requires cut != "" && IsLetter(cut[0]) && |cut| + SUFFIX_LENGTH <= MAX_VAULT_NAME_LENGTH
    ensures ValidName(TrimRight(cut, IsHyphen) + ("-" + digest)) <==> AllNameChars(cut)
  {
    var t := TrimRight(cut, IsHyphen);
    var whole := t + ("-" + digest);
    assert t != "" by {
      assert !IsHyphen(cut[0]);
    }
    assert forall i | 0 <= i < |t| :: whole[i] == cut[i];
    forall i | |t| <= i < |whole|
      ensures IsNameChar(whole[i])
    {
      if i > |t| {
        assert digest[i - |t| - 1] in digest;
        assert IsHex(whole[i]);
      }
    }
    assert forall i | |t| <= i < |cut| :: IsHyphen(cut[i]);
  }

  /** Repairing a valid name leaves it valid. */
  lemma DisambiguatedIsValid(digest: ShortDigest, name: string, seed: string)
    requires ValidName(name)
    ensures ValidName(DisambiguateVaultName(digest, name, seed))
  {
    assert IsShortDigest(digest(seed));
    var suffix := "-" + digest(seed);
    var cut := if |name| + |suffix| > MAX_VAULT_NAME_LENGTH then name[..MAX_VAULT_NAME_LENGTH - |suffix|] else name;
    CutAndSuffix(cut, digest(seed));
  }

  /** The last eight characters of a repaired name are the digest of its seed. */
  lemma DisambiguatedEndsWithDigest(digest: ShortDigest, name: string, seed: string)
    ensures var d := DisambiguateVaultName(digest, name, seed); |d| >= 9 && d[|d| - 8..] == digest(seed)
  {
    assert IsShortDigest(digest(seed));
  }

  /** Unless it was truncated, a repaired name sorts strictly after the name it replaces. */
  lemma DisambiguatedSortsAfter(digest: ShortDigest, name: string, seed: string)
    requires |name| + SUFFIX_LENGTH <= MAX_VAULT_NAME_LENGTH
    ensures Leq(name, DisambiguateVaultName(digest, name, seed))
    ensures name != DisambiguateVaultName(digest, name, seed)
  {
    var hex := digest(seed);
    assert IsShortDigest(hex);
    SuffixSortsAfter(name, hex);
  }

  lemma SuffixSortsAfter(name: string, hex: string)
    requires IsShortDigest(hex)
    ensures Leq(name, TrimRight(name, IsHyphen) + ("-" + hex))
    ensures name != TrimRight(name, IsHyphen) + ("-" + hex)
  {
    var t := TrimRight(name, IsHyphen);
    var hyphens := name[|t|..];
    assert name == t + hyphens;
    assert forall i | 0 <= i < |hyphens| :: hyphens[i] == name[|t| + i] && IsHyphen(name[|t| + i]);
    HyphensSortFirst(hyphens, hex);
    LexCommonPrefix(Rank, t, hyphens, "-" + hex);
    var d := t + ("-" + hex);
    assert hex[7] in hex && d[|d| - 1] == hex[7] && !IsHyphen(d[|d| - 1]);
    assert name == t || IsHyphen(name[|name| - 1]);
  }

  /** A hyphen sorts before every hexadecimal digit. */
  lemma HyphensSortFirst(hyphens: string, hex: string)
    requires IsShortDigest(hex)
    requires forall i | 0 <= i < |hyphens| :: IsHyphen(hyphens[i])
    ensures Leq(hyphens, "-" + hex)
  {
    if hyphens != "" {
      assert LexLeq(Rank, hyphens[1..], hex) by {
        if |hyphens| > 1 {
          assert hex[0] in hex && IsHex(hex[0]);
        }
      }
      assert ("-" + hex)[1..] == hex;
    }
  }

  // ----- The name that best identifies a certificate -----

  predicate IsWildcard(name: string) {
    WILDCARD <= name
  }

  /** Wildcards before plain names, then string order. */
  predicate Preferred(a: string, b: string) {
    (IsWildcard(a) && !IsWildcard(b)) || (IsWildcard(a) == IsWildcard(b) && Leq(a, b))
  }

  lemma PreferredIsOrder()
    ensures Total(Preferred) && Antisymmetric(Preferred)
  {
    LeqIsOrder();
  }

  /** Whether r is the best of the names that are not empty; "" stands for none. */
  ghost predicate IsPrimary(names: set<string>, r: string) {
    if names <= {""} then r == "" else r in names && r != "" && forall n | n in names && n != "" :: Preferred(r, n)
  }

  lemma PrimaryIsUnique(names: set<string>, r: string, q: string)
    requires IsPrimary(names, r) && IsPrimary(names, q)
    ensures r == q
  {
    PreferredIsOrder();
  }

  /** The primary name of a set is its least wildcard, or without a wildcard its least name. */
  lemma PrimaryMeans(names: set<string>, r: string)
    requires IsPrimary(names, r) && !(names <= {""})
    ensures r in names && r != ""
    ensures if exists n :: n in names && "*." <= n then "*." <= r && forall n | n in names && "*." <= n :: Leq(r, n)
            else forall n | n in names && n != "" :: Leq(r, n)
  {
  }

  /** One step of the scan for a primary name. */
  function Better(name: string, best: string): string {
    if name == "" then best
    else if best == "" then name
    else if IsWildcard(name) && !IsWildcard(best) then name
    else if IsWildcard(name) == IsWildcard(best) && name != best && Leq(name, best) then name
    else best
  }

  function PrimaryFrom(names: seq<string>, best: string): string {
    if names == [] then best else PrimaryFrom(names[1..], Better(names[0], best))
  }

  function Primary(names: seq<string>): string {
    PrimaryFrom(NormalizeAll(names), "")
  }

  method PrimaryDNSName(names: seq<string>) returns (best: string)
    ensures best == Primary(names)
    ensures IsPrimary(Elements(NormalizeAll(names)), best)
  {
    best := BestOf(NormalizeAll(names));
  }

  /** The loop of PrimaryDNSName, over names already in normal form. */
  method BestOf(names: seq<string>) returns (best: string)
    ensures best == PrimaryFrom(names, "")
    ensures IsPrimary(Elements(names), best)
  {
    best := "";
    for i := 0 to |names|
      invariant PrimaryFrom(names, "") == PrimaryFrom(names[i..], best)
    {
      var name := names[i];
      assert names[i..][1..] == names[i + 1..];
      if name == "" {
        continue;
      }
      if best == "" {
        best := name;
      } else if IsWildcard(name) && !IsWildcard(best) {
        best := name;
      } else if IsWildcard(name) == IsWildcard(best) && name != best && Leq(name, best) {
        best := name;
      }
    }
    PrimaryFromIsPrimary(names, "", {});
    assert {} + Elements(names) == Elements(names);
  }

  lemma BetterIsPrimary(seen: set<string>, name: string, best: string)
    requires IsPrimary(seen, best)
    ensures IsPrimary(seen + {name}, Better(name, best))
  {
    PreferredIsOrder();
  }

  lemma {:induction false} PrimaryFromIsPrimary(names: seq<string>, best: string, seen: set<string>)
    requires IsPrimary(seen, best)
    ensures IsPrimary(seen + Elements(names), PrimaryFrom(names, best))
  {
    if names == [] {
      assert seen + Elements(names) == seen;
    } else {
      BetterIsPrimary(seen, names[0], best);
      PrimaryFromIsPrimary(names[1..], Better(names[0], best), seen + {names[0]});
      assert seen + {names[0]} + Elements(names[1..]) == seen + Elements(names);
    }
  }

  /** The primary name, in whatever order the names come. */
  lemma PrimaryIs(names: seq<string>)
    ensures IsPrimary(Elements(NormalizeAll(names)), Primary(names))
  {
    PrimaryFromIsPrimary(NormalizeAll(names), "", {});
    assert {} + Elements(NormalizeAll(names)) == Elements(NormalizeAll(names));
  }
}
