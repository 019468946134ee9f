/** Plans of one or two zones that each require a single SAN, for the examples. */
module SmallPlans {
  import opened Outcomes
  import opened Sorting
  import opened Text
  import opened Packing

  lemma SortedTwo<T>(leq: (T, T) -> bool, a: T, b: T)
    ensures Sort(leq, [b]) == [b]
    ensures leq(a, b) ==> Sort(leq, [a, b]) == [a, b]
  {
    assert [b][1..] == [] && [a, b][1..] == [b];
    assert Sort(leq, [b]) == Insert(leq, b, []);
  }

  lemma SortsToItself(s: string)
    ensures SortStrings([s]) == [s]
  {
    SortedTwo(Leq, s, s);
  }

  /** A set of one or two strings, in order. */
  lemma SortedPair(a: string, b: string)
    requires a == b || Leq(a, b)
    ensures SortedSet({a, b}) == if a == b then [a] else [a, b]
  {
    var list := if a == b then [a] else [a, b];
    assert multiset(list) == multiset({a, b});
    SortedSetIs({a, b}, list);
    SortedTwo(Leq, a, b);
  }

  /** What a zone asks for when it requires one SAN. */
  ghost predicate IsSingle(rules: NameRules, part: Part, required: map<string, set<string>>) {
    && |part.members| == 1 && part.seed == PerZoneNameSeed(rules, part.zone, part.members)
    && part.zone in required && required[part.zone] == {part.members[0]}
  }

  lemma SinglePart(rules: NameRules, part: Part, required: map<string, set<string>>)
    requires IsSingle(rules, part, required)
    ensures ZoneParts(rules, part.zone, SortedSet(Lookup(required, part.zone)), PerZone) == [part]
  {
    var san := part.members[0];
    assert {san, san} == {san} && part.members == [san];
    SortedPair(san, san);
  }

  lemma OneZonePlan(rules: NameRules, required: map<string, set<string>>, part: Part, request: CertificateRequest)
    requires required.Keys == {part.zone} && IsSingle(rules, part, required)
    requires NewRequest(rules, part) == Ok(request)
    ensures Natural(rules, required, PerZone) == Ok([request])
  {
    hide SortedSet, ZoneParts, NewRequest;
    assert {part.zone, part.zone} == {part.zone};
    SortedPair(part.zone, part.zone);
    SinglePart(rules, part, required);
    assert Parts(rules, [part.zone], required, PerZone) == [part] + Parts(rules, [], required, PerZone);
    assert Requests(rules, [], [part]) == Requests(rules, [] + [request], []);
    assert [] + [request] == [request];
    SortedTwo(NameLeq, request, request);
  }

  lemma TwoZonePlan(
      rules: NameRules, required: map<string, set<string>>, a: Part, b: Part, first: CertificateRequest, second: CertificateRequest)
    requires required.Keys == {a.zone, b.zone} && a.zone != b.zone && Leq(a.zone, b.zone)
    requires IsSingle(rules, a, required) && IsSingle(rules, b, required)
    requires NewRequest(rules, a) == Ok(first) && NewRequest(rules, b) == Ok(second) && NameLeq(first, second)
    ensures Natural(rules, required, PerZone) == Ok([first, second])
  {
    SortedPair(a.zone, b.zone);
    TwoParts(rules, required, a, b);
    TwoRequests(rules, a, b, first, second);
    SortedTwo(NameLeq, first, second);
  }

  lemma TwoParts(rules: NameRules, required: map<string, set<string>>, a: Part, b: Part)
    requires IsSingle(rules, a, required) && IsSingle(rules, b, required)
    ensures Parts(rules, [a.zone, b.zone], required, PerZone) == [a, b]
  {
    SinglePart(rules, a, required);
    SinglePart(rules, b, required);
    assert [a.zone, b.zone][1..] == [b.zone] && [b.zone][1..] == [];
    assert Parts(rules, [b.zone], required, PerZone) == [b] + [];
  }

  lemma TwoRequests(rules: NameRules, a: Part, b: Part, first: CertificateRequest, second: CertificateRequest)
    requires NewRequest(rules, a) == Ok(first) && NewRequest(rules, b) == Ok(second)
    ensures Requests(rules, [], [a, b]) == Ok([first, second])
  {
    assert [a, b][1..] == [b] && [] + [first] == [first] && [first] + [second] == [first, second];
    assert Requests(rules, [first], [b]) == Ok([first, second]);
  }
}
