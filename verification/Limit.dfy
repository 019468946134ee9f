/** The certificate cap, which prefers what has already been issued (applyLimit in wildcard.go). */
module Limit {
  import opened Sorting
  import opened Packing
  import opened Collisions

  /** Where a name first stands in a plan. */
  function First(names: seq<string>, name: string): (i: nat)
    requires name in names
    ensures i < |names| && names[i] == name && forall k | 0 <= k < i :: names[k] != name
  {
    if names[0] == name then 0 else 1 + First(names[1..], name)
  }

  /** Whether name p has the better claim to a slot: issued before new, then plan order. */
  ghost predicate Outranks(names: seq<string>, existing: set<string>, p: string, q: string)
    requires p in names && q in names
  {
    || (p in existing && q !in existing)
    || ((p in existing <==> q in existing) && First(names, p) < First(names, q))
  }

  ghost function Min(a: int, b: int): int {
    if a < b then a else b
  }

  /** A choice of names to keep: all of them, or the best max of them. */
  ghost predicate IsSelection(names: seq<string>, max: int, existing: set<string>, keep: set<string>) {
    && keep <= Elements(names)
    && (if max <= 0 || |names| <= max then keep == Elements(names) else |keep| == Min(max, |Elements(names)|))
    && forall p, q | p in keep && q in names && q !in keep :: Outranks(names, existing, p, q)
  }

  /** There is only one such choice. */
  lemma SelectionIsUnique(names: seq<string>, max: int, existing: set<string>, a: set<string>, b: set<string>)
    requires IsSelection(names, max, existing, a) && IsSelection(names, max, existing, b)
    ensures a == b
  {
    if p :| p in a && p !in b {
      assert b <= a by {
        forall q | q in b
          ensures q in a
        {
          assert q in names && p in names;
          assert q !in a ==> Outranks(names, existing, p, q);
        }
      }
      SmallerSubset(b, a, p);
    } else if q :| q in b && q !in a {
      assert a <= b;
      SmallerSubset(a, b, q);
    }
  }

  lemma SmallerSubset(a: set<string>, b: set<string>, x: string)
    requires a <= b && x in b && x !in a
    ensures |a| < |b|
  {
    assert a + {x} <= b;
    SubsetSize(a + {x}, b);
  }

  lemma {:induction false} SubsetSize(a: set<string>, b: set<string>)
    requires a <= b
    ensures |a| <= |b|
    decreases a
  {
    if x :| x in a {
      SubsetSize(a - {x}, b - {x});
    }
  }

  function Kept(certs: seq<CertificateRequest>, keep: set<string>): seq<CertificateRequest> {
    if certs == [] then [] else (if certs[0].name in keep then [certs[0]] else []) + Kept(certs[1..], keep)
  }

  function Dropped(certs: seq<CertificateRequest>, keep: set<string>): seq<CertificateRequest> {
    if certs == [] then [] else (if certs[0].name in keep then [] else [certs[0]]) + Dropped(certs[1..], keep)
  }

  /** The issued names among the first n. */
  ghost function Issued(names: seq<string>, existing: set<string>, n: nat): set<string>
    requires n <= |names|
  {
    set k | 0 <= k < n && names[k] in existing :: names[k]
  }

  lemma IssuedGrows(names: seq<string>, existing: set<string>, n: nat)
    requires n < |names|
    ensures Issued(names, existing, n + 1) == Issued(names, existing, n) + if names[n] in existing then {names[n]} else {}
  {
  }

  /** The first pass: certificates that already exist claim their slots in plan order. */
  method ClaimIssued(certs: seq<CertificateRequest>, max: int, issued: set<string>) returns (keep: set<string>, ghost n: nat)
    requires 0 < max
    ensures n <= |certs| && keep == Issued(Names(certs), issued, n)
    ensures |keep| <= max && (|keep| == max || n == |certs|)
  {
    keep, n := {}, 0;
    var i := 0;
    while i < |certs| && |keep| != max
      invariant i <= |certs| && |keep| <= max && keep == Issued(Names(certs), issued, i)
    {
      IssuedGrows(Names(certs), issued, i);
      if certs[i].name in issued {
        keep := keep + {certs[i].name};
      }
      i := i + 1;
    }
    n := i;
  }

  /** The second pass: whatever room is left goes to new certificates, in plan order. */
  method FillUp(certs: seq<CertificateRequest>, max: int, first: set<string>) returns (keep: set<string>, ghost n: nat)
    requires |first| <= max
    ensures n <= |certs| && keep == first + Elements(Names(certs)[..n])
    ensures |keep| <= max && (|keep| == max || n == |certs|) && (|first| == max ==> n == 0)
  {
    keep, n := first, 0;
    var i := 0;
    while i < |certs| && |keep| != max
      invariant i <= |certs| && |keep| <= max && keep == first + Elements(Names(certs)[..i])
      invariant |first| == max ==> i == 0
    {
      SeenGrows(Names(certs), i);
      keep := keep + {certs[i].name};
      i := i + 1;
    }
    n := i;
  }

  /** The plan in two: what the choice keeps, and the overflow, both in plan order. */
  ghost predicate IsLimited(
      certs: seq<CertificateRequest>, max: int, existing: set<string>, keep: set<string>,
      kept: seq<CertificateRequest>, overflow: seq<CertificateRequest>) {
    IsSelection(Names(certs), max, existing, keep) && kept == Kept(certs, keep) && overflow == Dropped(certs, keep)
  }

  method ApplyLimit(certs: seq<CertificateRequest>, max: int, existing: seq<string>)
    returns (kept: seq<CertificateRequest>, overflow: seq<CertificateRequest>)
    ensures exists keep :: IsLimited(certs, max, Elements(existing), keep, kept, overflow)
  {
    if max <= 0 || |certs| <= max {
      NamesHoldNames(certs);
      KeepAll(certs, Elements(Names(certs)));
      assert IsLimited(certs, max, Elements(existing), Elements(Names(certs)), certs, []);
      return certs, [];
    }
    var issued: set<string> := {};
    for i := 0 to |existing|
      invariant issued == Elements(existing[..i])
      invariant i == |existing| ==> existing[..i] == existing
    {
      SeenGrows(existing, i);
      issued := issued + {existing[i]};
    }
    var first, seen := ClaimIssued(certs, max, issued);
    var chosen, n := FillUp(certs, max, first);
    TwoPassesSelect(Names(certs), max, issued, first, seen, chosen, n);
    kept, overflow := Partition(certs, chosen);
    assert IsLimited(certs, max, Elements(existing), chosen, kept, overflow);
  }

  method Partition(certs: seq<CertificateRequest>, keep: set<string>)
    returns (kept: seq<CertificateRequest>, overflow: seq<CertificateRequest>)
    ensures kept == Kept(certs, keep) && overflow == Dropped(certs, keep)
  {
    kept, overflow := [], [];
    for i := 0 to |certs|
      invariant kept + Kept(certs[i..], keep) == Kept(certs, keep)
      invariant overflow + Dropped(certs[i..], keep) == Dropped(certs, keep)
    {
      assert certs[i..][0] == certs[i] && certs[i..][1..] == certs[i + 1..];
      if certs[i].name in keep {
        kept := kept + [certs[i]];
      } else {
        overflow := overflow + [certs[i]];
      }
    }
  }

  lemma NamesHoldNames(certs: seq<CertificateRequest>)
    ensures forall c | c in certs :: c.name in Elements(Names(certs))
  {
    forall c | c in certs
      ensures c.name in Names(certs)
    {
      var i :| 0 <= i < |certs| && certs[i] == c;
      assert Names(certs)[i] == c.name;
    }
  }

  lemma {:induction false} KeepAll(certs: seq<CertificateRequest>, keep: set<string>)
    requires forall c | c in certs :: c.name in keep
    ensures Kept(certs, keep) == certs && Dropped(certs, keep) == []
  {
    if certs != [] {
      KeepAll(certs[1..], keep);
      assert certs == [certs[0]] + certs[1..];
    }
  }

  /** Issued names in order first, then any name in order, stopping at the cap: the best max of them. */
  lemma TwoPassesSelect(names: seq<string>, max: int, existing: set<string>, first: set<string>, seen: nat, keep: set<string>, n: nat)
    requires 0 < max < |names| && seen <= |names| && n <= |names|
    requires first == Issued(names, existing, seen) && (|first| == max || seen == |names|)
    requires keep == first + Elements(names[..n]) && |keep| <= max && (|keep| == max || n == |names|)
    requires |first| == max ==> n == 0
    ensures IsSelection(names, max, existing, keep)
  {
    forall p, q | p in keep && q in names && q !in keep
      ensures Outranks(names, existing, p, q)
    {
      assert q in existing ==> First(names, q) >= seen;
      if p in first {
        var k :| 0 <= k < seen && names[k] in existing && names[k] == p;
        assert First(names, p) <= k;
      } else {
        var k :| 0 <= k < n && names[..n][k] == p;
        assert First(names, p) <= k;
        assert seen == |names|;
        assert forall i | 0 <= i < n :: names[..n][i] == names[i] && names[i] in Elements(names[..n]);
      }
    }
    SubsetSize(keep, Elements(names));
    assert n == |names| ==> names[..n] == names && keep == Elements(names);
  }

  // ----- What the cap promises -----

  /**
   An interrupted pass selects the same names again. Whatever part of an apply or a prune
   went through, the names that exist afterwards lie between those kept that existed and
   those that existed or were kept, and every such set selects exactly what was kept.
   */
  lemma SelectionSurvivesInterruption(names: seq<string>, max: int, before: set<string>, keep: set<string>, after: set<string>, again: set<string>)
    requires IsSelection(names, max, before, keep)
    requires before * keep <= after <= before + keep
    ensures IsSelection(names, max, after, again) <==> again == keep
  {
    StillSelects(names, max, before, keep, after);
    if IsSelection(names, max, after, again) {
      SelectionIsUnique(names, max, after, again, keep);
    }
  }

  lemma StillSelects(names: seq<string>, max: int, before: set<string>, keep: set<string>, after: set<string>)
    requires IsSelection(names, max, before, keep)
    requires before * keep <= after <= before + keep
    ensures IsSelection(names, max, after, keep)
  {
    forall p, q | p in keep && q in names && q !in keep
      ensures Outranks(names, after, p, q)
    {
      assert Outranks(names, before, p, q);
    }
  }

  /** The names with a better claim than q. */
  ghost function Ahead(names: seq<string>, existing: set<string>, q: string): set<string>
    requires q in names
  {
    set p | p in names && Outranks(names, existing, p, q)
  }

  /** Where the cap applies, a name is kept exactly when fewer than max names have a better claim. */
  lemma KeptIff(names: seq<string>, max: int, existing: set<string>, keep: set<string>, q: string)
    requires IsSelection(names, max, existing, keep) && 0 < max < |names| && q in names
    ensures q in keep <==> |Ahead(names, existing, q)| < max
  {
    var ahead := Ahead(names, existing, q);
    if q in keep {
      forall x | x in ahead
        ensures x in keep
      {
        assert x !in keep ==> Outranks(names, existing, q, x);
      }
      SmallerSubset(ahead, keep, q);
    } else {
      forall p | p in keep
        ensures p in ahead
      {
        assert Outranks(names, existing, p, q);
      }
      SubsetSize(keep, ahead);
      SmallerSubset(keep, Elements(names), q);
    }
  }

  /** An issued certificate that is still planned loses its slot only to other issued ones. */
  lemma OnlyIssuedEvictIssued(names: seq<string>, max: int, existing: set<string>, keep: set<string>, name: string)
    requires IsSelection(names, max, existing, keep)
    requires name in names && name in existing && name !in keep
    ensures keep <= existing && max > 0 && |existing * Elements(names)| > |keep| == max
  {
    forall p | p in keep
      ensures p in existing
    {
      assert Outranks(names, existing, p, name);
    }
    SmallerSubset(keep, existing * Elements(names), name);
    SmallerSubset(keep, Elements(names), name);
  }

  /** Kept and overflow split the plan: nothing is lost. */
  lemma {:induction false} LimitSplits(certs: seq<CertificateRequest>, keep: set<string>)
    ensures multiset(Kept(certs, keep)) + multiset(Dropped(certs, keep)) == multiset(certs)
  {
    if certs != [] {
      LimitSplits(certs[1..], keep);
      assert certs == [certs[0]] + certs[1..];
    }
  }

  /** And no SAN changes hands. */
  lemma {:induction false} LimitKeepsSans(certs: seq<CertificateRequest>, keep: set<string>)
    ensures Sans(Kept(certs, keep)) + Sans(Dropped(certs, keep)) == Sans(certs)
  {
    if certs != [] {
      LimitKeepsSans(certs[1..], keep);
      NextSans(certs, Kept(certs[1..], keep), Dropped(certs[1..], keep));
    }
  }

  /** One more certificate, on one side or on the other. */
  lemma NextSans(certs: seq<CertificateRequest>, kept: seq<CertificateRequest>, dropped: seq<CertificateRequest>)
    requires certs != [] && Sans(kept) + Sans(dropped) == Sans(certs[1..])
    ensures Sans([certs[0]] + kept) + Sans([] + dropped) == Sans(certs)
    ensures Sans([] + kept) + Sans([certs[0]] + dropped) == Sans(certs)
  {
    var own := multiset(certs[0].dnsNames);
    NextSansAre(certs[0], kept, Sans(kept), own);
    NextSansAre(certs[0], dropped, Sans(dropped), own);
    Regrouped(own, Sans(kept), Sans(dropped));
  }

  lemma NextSansAre(cert: CertificateRequest, rest: seq<CertificateRequest>, sans: multiset<string>, own: multiset<string>)
    requires sans == Sans(rest) && own == multiset(cert.dnsNames)
    ensures Sans([cert] + rest) == own + sans && Sans([] + rest) == sans
  {
    SansOfCons(cert, rest);
    assert [] + rest == rest;
  }

  lemma Regrouped(own: multiset<string>, a: multiset<string>, b: multiset<string>)
    ensures own + a + b == own + (a + b) && a + (own + b) == own + (a + b)
  {
  }

  lemma SansOfCons(cert: CertificateRequest, rest: seq<CertificateRequest>)
    ensures Sans([cert] + rest) == multiset(cert.dnsNames) + Sans(rest)
  {
    assert ([cert] + rest)[1..] == rest;
  }

  /** The names of what is kept. */
  function Keeping(names: seq<string>, keep: set<string>): seq<string> {
    if names == [] then [] else (if names[0] in keep then [names[0]] else []) + Keeping(names[1..], keep)
  }

  lemma {:induction false} NamesOfKept(certs: seq<CertificateRequest>, keep: set<string>)
    ensures Names(Kept(certs, keep)) == Keeping(Names(certs), keep)
  {
    if certs != [] {
      NamesOfKept(certs[1..], keep);
      var rest := Kept(certs[1..], keep);
      assert ([certs[0]] + rest)[1..] == rest && [] + rest == rest;
    }
  }

  lemma {:induction false} KeepingTakes(names: seq<string>, keep: set<string>)
    ensures multiset(Keeping(names, keep)) <= multiset(names)
    ensures forall n :: n in Keeping(names, keep) <==> n in names && n in keep
  {
    if names != [] {
      assert names == [names[0]] + names[1..];
      KeepingTakes(names[1..], keep);
    }
  }

  lemma InKeptNames(certs: seq<CertificateRequest>, keep: set<string>, name: string)
    requires name in Names(certs)
    ensures name in Elements(Names(Kept(certs, keep))) <==> name in keep
  {
    NamesOfKept(certs, keep);
    KeepingTakes(Names(certs), keep);
  }

  lemma KeepingStaysDistinct(names: seq<string>, keep: set<string>)
    requires Distinct(names)
    ensures Distinct(Keeping(names, keep))
  {
    KeepingTakes(names, keep);
    forall x
      ensures multiset(Keeping(names, keep))[x] <= 1
    {
      DistinctCountsOnce(names, x);
    }
    CountedOnceIsDistinct(Keeping(names, keep));
  }

  lemma {:induction false} KeepingCounts(names: seq<string>, keep: set<string>, x: string)
    ensures multiset(Keeping(names, keep))[x] == if x in keep then multiset(names)[x] else 0
  {
    if names != [] {
      assert names == [names[0]] + names[1..];
      KeepingCounts(names[1..], keep, x);
    }
  }

  lemma {:induction false} RepeatedCountsTwice(names: seq<string>, j: nat, i: nat)
    requires j < i < |names| && names[j] == names[i]
    ensures multiset(names)[names[j]] >= 2
  {
    assert names == [names[0]] + names[1..];
    if j > 0 {
      RepeatedCountsTwice(names[1..], j - 1, i - 1);
    } else {
      assert names[1..][i - 1] == names[i] && names[i] in multiset(names[1..]);
    }
  }

  /** Whether a list repeats one of these names. */
  ghost predicate Repeats(names: seq<string>, among: set<string>) {
    exists j, i :: 0 <= j < i < |names| && names[j] == names[i] && names[j] in among
  }

  /** What is kept repeats a name exactly when it keeps a name that repeats. */
  lemma KeptIsDistinctIff(names: seq<string>, keep: set<string>)
    ensures Distinct(Keeping(names, keep)) <==> !Repeats(names, keep)
  {
    var kept := Keeping(names, keep);
    if j, i :| 0 <= j < i < |names| && names[j] == names[i] && names[j] in keep {
      RepeatedCountsTwice(names, j, i);
      KeepingCounts(names, keep, names[j]);
      if Distinct(kept) {
        DistinctCountsOnce(kept, names[j]);
      }
    } else if !Distinct(kept) {
      var j, i :| 0 <= j < i < |kept| && kept[j] == kept[i];
      RepeatedCountsTwice(kept, j, i);
      KeepingCounts(names, keep, kept[j]);
      CountedTwiceIsRepeated(names, kept[j]);
    }
  }

  lemma {:induction false} CountedTwiceIsRepeated(names: seq<string>, x: string)
    requires multiset(names)[x] >= 2
    ensures exists j, i :: 0 <= j < i < |names| && names[j] == names[i] == x
  {
    assert names == [names[0]] + names[1..];
    if names[0] == x {
      assert x in multiset(names[1..]);
      var i :| 0 <= i < |names[1..]| && names[1..][i] == x;
      assert names[0] == names[i + 1] == x;
    } else {
      CountedTwiceIsRepeated(names[1..], x);
      var j, i :| 0 <= j < i < |names[1..]| && names[1..][j] == names[1..][i] == x;
      assert names[j + 1] == names[i + 1] == x;
    }
  }

  /** A list has at most as many elements as places, and as many only if none repeats. */
  lemma {:induction false} ElementsSize(s: seq<string>)
    ensures |Elements(s)| <= |s|
    ensures |Elements(s)| == |s| <==> Distinct(s)
  {
    if s != [] {
      ElementsSize(s[1..]);
      assert Elements(s) == {s[0]} + Elements(s[1..]);
      if s[0] in s[1..] {
        assert Elements(s) == Elements(s[1..]);
        var i :| 0 <= i < |s[1..]| && s[1..][i] == s[0];
        assert s[i + 1] == s[0];
      }
    }
  }

  /**
   How many certificates the cap lets through. Where it applies it never lets through fewer
   than max; it counts names, so it lets through more exactly when a name it keeps repeats.
   */
  lemma CapIsExact(certs: seq<CertificateRequest>, max: int, existing: set<string>, keep: set<string>)
    requires IsSelection(Names(certs), max, existing, keep)
    ensures Elements(Names(Kept(certs, keep))) == keep
    ensures max <= 0 || |certs| <= max ==> Kept(certs, keep) == certs
    ensures 0 < max < |certs| ==> |Kept(certs, keep)| >= max && (|Kept(certs, keep)| == max <==> Distinct(Names(Kept(certs, keep))))
  {
    hide Kept, Keeping, Outranks;
    KeptNamesAre(certs, keep);
    ElementsSize(Names(Kept(certs, keep)));
    if keep == Elements(Names(certs)) {
      NamesHoldNames(certs);
      KeepAll(certs, keep);
    } else {
      var q :| q in Elements(Names(certs)) && q !in keep;
      SmallerSubset(keep, Elements(Names(certs)), q);
    }
  }

  lemma KeptNamesAre(certs: seq<CertificateRequest>, keep: set<string>)
    requires keep <= Elements(Names(certs))
    ensures Elements(Names(Kept(certs, keep))) == keep
  {
    NamesOfKept(certs, keep);
    KeepingTakes(Names(certs), keep);
  }
}
