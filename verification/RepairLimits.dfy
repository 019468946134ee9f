/** A name too long to take a digest whole can defeat collision repair. */
module RepairLimits {
  import opened Outcomes
  import opened Sorting
  import opened Text
  import opened Naming
  import opened Packing
  import opened Collisions
  import opened SmallPlans

  /** 109 letters and dots: with the wildcard prefix, exactly what truncation leaves of a name. */
  ghost predicate IsLongTail(tail: string) {
    && |tail| == 109 && tail[0] == 'x' && tail[108] != '.'
    && forall i | 0 <= i < |tail| :: 'a' <= tail[i] <= 'z' || tail[i] == '.'
  }

  function Dashed(s: string): string {
    ReplaceAll(s, '.', '-')
  }

  /** A zone whose wildcard has too long a name. */
  function LongZone(tail: string): string {
    tail + "." + tail
  }

  /** The name that wildcard gets, and an apex zone that spells the same name. */
  function SharedName(digest: ShortDigest, tail: string): string {
    WILDCARD_PREFIX + Dashed(tail) + ("-" + digest(WILDCARD + LongZone(tail)))
  }

  function Impostor(digest: ShortDigest, tail: string): string {
    "wildcard." + tail + ("-" + digest(WILDCARD + LongZone(tail)))
  }

  /** The part of a zone that needs only its apex, and of one that needs only its wildcard. */
  function ApexPart(zone: string): Part {
    Part(zone, zone, [zone])
  }

  function WildcardPart(zone: string): Part {
    Part(zone, WILDCARD + zone, [WILDCARD + zone])
  }

  /**
   Whatever the digest, there are two zones whose certificates keep one name through repair.
   The wildcard of a long zone has its name truncated and given the digest of that wildcard;
   an apex can spell the result. Repairing the wildcard's name truncates it at the same
   place and adds the same digest again.
   */
  lemma TruncationDefeatsRepair(digest: ShortDigest, tail: string) returns (apex: Part, long: Part, certs: seq<CertificateRequest>)
    requires IsLongTail(tail)
    ensures apex == ApexPart(Impostor(digest, tail)) && long == WildcardPart(LongZone(tail))
    ensures Leq(apex.zone, long.zone)
    ensures Requests(VaultNames(digest), [], [apex, long]) == Ok(certs) && Sorted(NameLeq, certs)
    ensures |certs| == 2 && !Distinct(Names(Resolved(VaultNames(digest), certs)))
  {
    ImpostorName(digest, tail);
    LongName(digest, tail);
    SharedNameStays(digest, tail);
    apex, long, certs := SharedNameRepeats(VaultNames(digest), Impostor(digest, tail), LongZone(tail), SharedName(digest, tail));
  }

  lemma SharedNameRepeats(rules: NameRules, a: string, b: string, shared: string) returns (apex: Part, long: Part, certs: seq<CertificateRequest>)
    requires rules.derive(a) == Ok(shared) && rules.derive(WILDCARD + b) == Ok(shared)
    requires rules.fallback(shared, Join([WILDCARD + b], ',')) == shared
    ensures apex == ApexPart(a) && long == WildcardPart(b)
    ensures Requests(rules, [], [apex, long]) == Ok(certs) && Sorted(NameLeq, certs)
    ensures |certs| == 2 && !Distinct(Names(Resolved(rules, certs)))
  {
    apex, long := ApexPart(a), WildcardPart(b);
    var first, second := CertificateRequest(shared, a, [a]), CertificateRequest(shared, b, [WILDCARD + b]);
    certs := [first, second];
    SortsToItself(a);
    SortsToItself(WILDCARD + b);
    TwoRequests(rules, apex, long, first, second);
    LexTotal(Rank, shared, shared);
    SelfFallbackRepeats(rules, first, second);
  }

  /** A certificate whose fallback is the name it lost keeps that name. */
  lemma SelfFallbackRepeats(rules: NameRules, first: CertificateRequest, second: CertificateRequest)
    requires first.name == second.name == Fallback(rules, second)
    ensures !Distinct(Names(Resolved(rules, [first, second])))
  {
    var certs := [first, second];
    assert Taken(rules, certs, 1) by {
      assert certs[0].name == certs[1].name;
    }
    assert Clash(rules, certs, 0, 1);
    RepairIsUniqueIff(rules, certs);
  }

  // ----- The shared name -----

  lemma DashedAppend(a: string, b: string)
    ensures Dashed(a + b) == Dashed(a) + Dashed(b)
  {
  }

  lemma DashedThree(a: string, b: string, c: string)
    ensures Dashed(a + b + c) == Dashed(a) + Dashed(b) + Dashed(c)
  {
    DashedAppend(a, b);
    DashedAppend(a + b, c);
  }

  lemma DashedWords()
    ensures Dashed("wildcard.") == WILDCARD_PREFIX && Dashed(".") == "-"
  {
    var word := "wildcard.";
    assert forall i | 0 <= i < |word| :: WILDCARD_PREFIX[i] == if word[i] == '.' then '-' else word[i];
    Spelt(word, WILDCARD_PREFIX);
  }

  lemma Spelt(s: string, dashed: string)
    requires |s| == |dashed| && forall i | 0 <= i < |s| :: dashed[i] == if s[i] == '.' then '-' else s[i]
    ensures Dashed(s) == dashed
  {
  }

  lemma DashedSuffix(hex: string)
    requires IsShortDigest(hex)
    ensures Dashed("-" + hex) == "-" + hex
  {
    assert forall i | 0 <= i < |hex| :: hex[i] in hex;
  }

  /** What truncation leaves ends in a letter, so trimming hyphens leaves it alone. */
  lemma HeadIsKept(tail: string)
    requires IsLongTail(tail)
    ensures var head := WILDCARD_PREFIX + Dashed(tail);
            |head| == 118 && IsLetter(head[0]) && AllNameChars(head) && TrimRight(head, IsHyphen) == head
  {
    AllNameCharsAppend(WILDCARD_PREFIX, Dashed(tail));
    var head := WILDCARD_PREFIX + Dashed(tail);
    assert head[117] == Dashed(tail)[108] == tail[108];
  }

  lemma SharedNameIsValid(digest: ShortDigest, tail: string)
    requires IsLongTail(tail)
    ensures ValidName(SharedName(digest, tail)) && |SharedName(digest, tail)| == MAX_VAULT_NAME_LENGTH
  {
    HeadIsKept(tail);
    assert IsShortDigest(digest(WILDCARD + LongZone(tail)));
    CutAndSuffix(WILDCARD_PREFIX + Dashed(tail), digest(WILDCARD + LongZone(tail)));
  }

  lemma SharedNameStays(digest: ShortDigest, tail: string)
    requires IsLongTail(tail)
    ensures DisambiguateVaultName(digest, SharedName(digest, tail), Join([WILDCARD + LongZone(tail)], ',')) == SharedName(digest, tail)
  {
    assert IsShortDigest(digest(WILDCARD + LongZone(tail)));
    HeadIsKept(tail);
    SharedNameIsValid(digest, tail);
    assert SharedName(digest, tail)[..118] == WILDCARD_PREFIX + Dashed(tail);
  }

  // ----- The apex spells it -----

  lemma ImpostorName(digest: ShortDigest, tail: string)
    requires IsLongTail(tail)
    ensures DeriveVaultCertificateName(digest, Impostor(digest, tail)) == Ok(SharedName(digest, tail))
    ensures Leq(Impostor(digest, tail), LongZone(tail))
  {
    var hex := digest(WILDCARD + LongZone(tail));
    assert IsShortDigest(hex);
    ImpostorIsNormal("wildcard.", tail, hex);
    NormalIsFixpoint(Impostor(digest, tail));
    ImpostorSpelling(tail, hex);
    SharedNameIsValid(digest, tail);
    assert Impostor(digest, tail)[0] == 'w' && LongZone(tail)[0] == 'x';
  }

  lemma ImpostorIsNormal(head: string, tail: string, hex: string)
    requires IsLongTail(tail) && IsShortDigest(hex)
    requires head != "" && IsLetter(head[0]) && forall c | c in head :: !IsUpper(c)
    ensures IsNormal(head + tail + ("-" + hex))
  {
    var a := head + tail + ("-" + hex);
    assert a[|a| - 1] == hex[7] && hex[7] in hex;
    forall c | c in a
      ensures !IsUpper(c)
    {
      assert c in head || c in tail || c == '-' || c in hex;
    }
  }

  lemma ImpostorSpelling(tail: string, hex: string)
    requires IsLongTail(tail) && IsShortDigest(hex)
    ensures Spelling("wildcard." + tail + ("-" + hex)) == WILDCARD_PREFIX + Dashed(tail) + ("-" + hex)
  {
    DashedWords();
    DashedSuffix(hex);
    DashedThree("wildcard.", tail, "-" + hex);
    PlainSpelling("wildcard." + tail + ("-" + hex));
  }

  lemma PlainSpelling(host: string)
    requires host != "" && IsLetter(host[0])
    ensures Spelling(host) == Dashed(host)
  {
    SpellingSplits(host);
    assert !(WILDCARD <= host);
    assert [] + Dashed(host) == Dashed(host);
  }

  // ----- The wildcard is truncated to it -----

  lemma LongName(digest: ShortDigest, tail: string)
    requires IsLongTail(tail)
    ensures DeriveVaultCertificateName(digest, WILDCARD + LongZone(tail)) == Ok(SharedName(digest, tail))
  {
    LongSanIsNormal(tail);
    NormalIsFixpoint(WILDCARD + LongZone(tail));
    LongSpelling(tail);
    LongTruncation(digest, tail, WILDCARD + LongZone(tail));
    SharedNameIsValid(digest, tail);
  }

  lemma LongSanIsNormal(tail: string)
    requires IsLongTail(tail)
    ensures IsNormal(WILDCARD + LongZone(tail))
  {
    var san := WILDCARD + LongZone(tail);
    assert san[|san| - 1] == tail[108];
    forall c | c in san
      ensures !IsUpper(c)
    {
      assert c == '*' || c == '.' || c in tail;
    }
  }

  lemma LongSpelling(tail: string)
    requires IsLongTail(tail)
    ensures Spelling(WILDCARD + LongZone(tail)) == WILDCARD_PREFIX + Dashed(tail) + ("-" + Dashed(tail))
  {
    DashedWords();
    DashedThree(tail, ".", tail);
    WildcardSpelling(LongZone(tail));
    Regroup(WILDCARD_PREFIX, Dashed(tail), "-", Dashed(tail));
  }

  lemma Regroup(a: string, b: string, c: string, d: string)
    ensures a + (b + c + d) == a + b + (c + d)
  {
  }

  lemma WildcardSpelling(zone: string)
    requires zone != ""
    ensures Spelling(WILDCARD + zone) == WILDCARD_PREFIX + Dashed(zone)
  {
    SpellingSplits(WILDCARD + zone);
    assert TrimPrefix(WILDCARD + zone, WILDCARD) == zone;
  }

  lemma LongTruncation(digest: ShortDigest, tail: string, seed: string)
    requires IsLongTail(tail)
    ensures var spelling := WILDCARD_PREFIX + Dashed(tail) + ("-" + Dashed(tail));
            && |spelling| > MAX_VAULT_NAME_LENGTH
            && TruncateWithDigest(digest, spelling, seed) == WILDCARD_PREFIX + Dashed(tail) + ("-" + digest(seed))
  {
    assert IsShortDigest(digest(seed));
    HeadIsKept(tail);
    var spelling := WILDCARD_PREFIX + Dashed(tail) + ("-" + Dashed(tail));
    assert spelling[..118] == WILDCARD_PREFIX + Dashed(tail);
  }

  // ----- Such tails are ordinary host names -----

  /** Whether there is a dot among 64 characters. */
  ghost predicate DotFrom(s: string, i: nat)
    requires i + 64 <= |s|
  {
    '.' in s[i..i + 64]
  }

  /** No label is longer than the 63 characters of section 2.3.4 of RFC 1035, and no name longer than 253. */
  ghost predicate IsHostLength(s: string) {
    |s| <= 253 && forall i: nat | i + 64 <= |s| :: DotFrom(s, i)
  }

  /** Two labels of 54 letters. */
  function OrdinaryTail(): string {
    seq(109, i => if i == 54 then '.' else 'x')
  }

  lemma DotWithin(s: string, i: nat, k: nat)
    requires i <= k < i + 64 <= |s| && s[k] == '.'
    ensures DotFrom(s, i)
  {
    assert s[i..i + 64][k - i] == '.';
  }

  lemma OrdinaryZone()
    ensures IsHostLength(WILDCARD + LongZone(OrdinaryTail()))
  {
    var san := WILDCARD + LongZone(OrdinaryTail());
    assert san[1] == san[56] == san[111] == san[166] == '.';
    forall i: nat | i + 64 <= |san|
      ensures DotFrom(san, i)
    {
      DotWithin(san, i, if i <= 1 then 1 else if i <= 56 then 56 else if i <= 111 then 111 else 166);
    }
  }

  lemma OrdinaryImpostor(hex: string)
    requires |hex| == 8
    ensures IsHostLength("wildcard." + OrdinaryTail() + ("-" + hex))
  {
    var a := "wildcard." + OrdinaryTail() + ("-" + hex);
    assert a[8] == a[63] == '.';
    forall i: nat | i + 64 <= |a|
      ensures DotFrom(a, i)
    {
      DotWithin(a, i, if i <= 8 then 8 else 63);
    }
  }

  /** So the zones above, and the names routed under them, can be legal host names. */
  lemma LongTailsCanBeOrdinary(digest: ShortDigest)
    ensures IsLongTail(OrdinaryTail())
    ensures IsHostLength(WILDCARD + LongZone(OrdinaryTail())) && IsHostLength(Impostor(digest, OrdinaryTail()))
  {
    assert IsShortDigest(digest(WILDCARD + LongZone(OrdinaryTail())));
    OrdinaryZone();
    OrdinaryImpostor(digest(WILDCARD + LongZone(OrdinaryTail())));
  }
}
