/** What a policy generates in the cluster, and the API server that holds it. */
module Cluster {
  import opened Outcomes
  import opened Sorting
  import opened Planner

  /** A resource, and the policy that generated it: its label and its owner reference. */
  datatype Owned<+T> = Owned(policy: Option<string>, spec: T)

  datatype CertificateSpec = CertificateSpec(secretName: string, dnsNames: seq<string>)

  datatype SyncSpec = SyncSpec(secretName: string, certificateName: string)

  /** The resources of one namespace, by name. */
  datatype ClusterState = ClusterState(certificates: map<string, Owned<CertificateSpec>>, syncs: map<string, Owned<SyncSpec>>)

  function CertificateFor(d: DesiredCertificate): CertificateSpec {
    CertificateSpec(d.secretName, d.request.dnsNames)
  }

  function SyncFor(d: DesiredCertificate): SyncSpec {
    SyncSpec(d.secretName, d.request.name)
  }

  // ----- One kind of resource -----

  /** What a policy has generated. */
  function Mine<T>(policy: string, resources: map<string, Owned<T>>): set<string> {
    set n | n in resources && resources[n].policy == Some(policy)
  }

  /** Whether a name belongs to another policy, whose resource may not be overwritten. */
  predicate Foreign<T>(policy: string, resources: map<string, Owned<T>>, name: string) {
    name in resources && resources[name].policy.Some? && resources[name].policy.value != policy
  }

  function Put<T>(policy: string, resources: map<string, Owned<T>>, name: string, spec: T): map<string, Owned<T>> {
    resources[name := Owned(Some(policy), spec)]
  }

  /** Resources after those for a list of certificates have been created or updated in order. */
  function PutAll<T>(policy: string, resources: map<string, Owned<T>>, certs: seq<DesiredCertificate>, specFor: DesiredCertificate -> T): map<string, Owned<T>> {
    if certs == [] then resources else
    var last := certs[|certs| - 1];
    Put(policy, PutAll(policy, resources, certs[..|certs| - 1], specFor), last.request.name, specFor(last))
  }

  lemma PutNext<T>(policy: string, resources: map<string, Owned<T>>, certs: seq<DesiredCertificate>, specFor: DesiredCertificate -> T, i: nat)
    requires i < |certs|
    ensures PutAll(policy, resources, certs[..i + 1], specFor) ==
            Put(policy, PutAll(policy, resources, certs[..i], specFor), certs[i].request.name, specFor(certs[i]))
  {
    assert certs[..i + 1][..i] == certs[..i];
  }

  /** Writing one name makes it mine and leaves every other name alone. */
  lemma PutAdds<T>(policy: string, resources: map<string, Owned<T>>, name: string, spec: T)
    ensures Mine(policy, Put(policy, resources, name, spec)) == Mine(policy, resources) + {name}
  {
  }

  lemma {:induction false} PutAllOwns<T>(policy: string, resources: map<string, Owned<T>>, certs: seq<DesiredCertificate>, specFor: DesiredCertificate -> T)
    ensures Mine(policy, PutAll(policy, resources, certs, specFor)) == Mine(policy, resources) + Elements(DesiredNames(certs))
  {
    if certs == [] {
      assert Elements(DesiredNames(certs)) == {};
    } else {
      var init, last := certs[..|certs| - 1], certs[|certs| - 1];
      PutAllOwns(policy, resources, init, specFor);
      PutAdds(policy, PutAll(policy, resources, init, specFor), last.request.name, specFor(last));
      NamesOfLast(certs);
    }
  }

  lemma NamesOfLast(certs: seq<DesiredCertificate>)
    requires certs != []
    ensures var init, last := certs[..|certs| - 1], certs[|certs| - 1];
            Elements(DesiredNames(certs)) == Elements(DesiredNames(init)) + {last.request.name}
  {
    var init, last := certs[..|certs| - 1], certs[|certs| - 1];
    SeenGrows(DesiredNames(certs), |init|);
    assert DesiredNames(certs)[..|init|] == DesiredNames(init);
  }

  lemma {:induction false} PutAllLeaves<T>(policy: string, resources: map<string, Owned<T>>, certs: seq<DesiredCertificate>, specFor: DesiredCertificate -> T, name: string)
    requires name !in Elements(DesiredNames(certs))
    ensures var after := PutAll(policy, resources, certs, specFor);
            (name in after <==> name in resources) && (name in after ==> after[name] == resources[name])
  {
    if certs != [] {
      NamesOfLast(certs);
      PutAllLeaves(policy, resources, certs[..|certs| - 1], specFor, name);
    }
  }

  /** What writing does: it adds the names written to what is mine, and leaves every other name alone. */
  lemma PutAllAdds<T>(policy: string, resources: map<string, Owned<T>>, certs: seq<DesiredCertificate>, specFor: DesiredCertificate -> T)
    ensures var after := PutAll(policy, resources, certs, specFor);
            && Mine(policy, after) == Mine(policy, resources) + Elements(DesiredNames(certs))
            && (forall n | n !in DesiredNames(certs) :: (n in after <==> n in resources) && (n in after ==> after[n] == resources[n]))
            && (forall n | n in DesiredNames(certs) :: n in after && after[n].policy == Some(policy))
  {
    hide PutAll;
    var after := PutAll(policy, resources, certs, specFor);
    PutAllOwns(policy, resources, certs, specFor);
    forall n | n !in DesiredNames(certs)
      ensures (n in after <==> n in resources) && (n in after ==> after[n] == resources[n])
    {
      PutAllLeaves(policy, resources, certs, specFor, n);
    }
    forall n | n in DesiredNames(certs)
      ensures n in Mine(policy, after)
    {
    }
  }

  /** Writing keeps other policies' resources, as long as it has met none of them. */
  lemma PutAllKeepsForeign<T>(policy: string, resources: map<string, Owned<T>>, certs: seq<DesiredCertificate>, specFor: DesiredCertificate -> T, name: string)
    requires forall d | d in certs :: !Foreign(policy, resources, d.request.name)
    ensures Foreign(policy, PutAll(policy, resources, certs, specFor), name) <==> Foreign(policy, resources, name)
  {
    PutAllAdds(policy, resources, certs, specFor);
    if name in DesiredNames(certs) {
      var _ := NamedByOne(certs, name);
    }
  }

  lemma NamedByOne(certs: seq<DesiredCertificate>, name: string) returns (d: DesiredCertificate)
    requires name in DesiredNames(certs)
    ensures d in certs && d.request.name == name
  {
    MapMembers(DesiredName, certs);
    d :| d in certs && DesiredName(d) == name;
  }

  /** With distinct names, each resource holds what its own certificate asks for. */
  lemma {:induction false} PutAllHolds<T>(policy: string, resources: map<string, Owned<T>>, certs: seq<DesiredCertificate>, specFor: DesiredCertificate -> T, d: DesiredCertificate)
    requires Distinct(DesiredNames(certs)) && d in certs
    ensures var after := PutAll(policy, resources, certs, specFor);
            d.request.name in after && after[d.request.name] == Owned(Some(policy), specFor(d))
  {
    var init, last := certs[..|certs| - 1], certs[|certs| - 1];
    if d != last {
      var i :| 0 <= i < |certs| && certs[i] == d;
      assert init[i] == d && DesiredNames(certs)[i] != DesiredNames(certs)[|certs| - 1];
      assert forall k | 0 <= k < |init| :: DesiredNames(init)[k] == DesiredNames(certs)[k];
      PutAllHolds(policy, resources, init, specFor, d);
    }
  }

  /** Writing what is already there changes nothing. */
  lemma {:induction false} PutAllAgain<T>(policy: string, resources: map<string, Owned<T>>, certs: seq<DesiredCertificate>, specFor: DesiredCertificate -> T)
    requires forall d | d in certs :: d.request.name in resources && resources[d.request.name] == Owned(Some(policy), specFor(d))
    ensures PutAll(policy, resources, certs, specFor) == resources
  {
    if certs != [] {
      PutAllAgain(policy, resources, certs[..|certs| - 1], specFor);
    }
  }

  // ----- The API server -----

  /** How a call is answered: done, refused, or done with the answer lost. */
  datatype Reply = Done | Refused | ReplyLost

  class ApiServer {
    var certificates: map<string, Owned<CertificateSpec>>
    var syncs: map<string, Owned<SyncSpec>>
    const replies: nat -> Reply
    var calls: nat

    constructor (state: ClusterState, replies: nat -> Reply)
      ensures State() == state && this.replies == replies && calls == 0
    {
      certificates, syncs, this.replies, calls := state.certificates, state.syncs, replies, 0;
    }

    function State(): ClusterState
      reads this
    {
      ClusterState(certificates, syncs)
    }

    /** No call fails. */
    ghost predicate Faultless() {
      forall n: nat :: replies(n).Done?
    }

    method ListSyncs(policy: string) returns (r: Option<set<string>>)
      modifies this`calls
      ensures r == if replies(old(calls)).Done? then Some(Mine(policy, syncs)) else None
    {
      var reply := replies(calls);
      calls := calls + 1;
      return if reply.Done? then Some(Mine(policy, syncs)) else None;
    }

    method ListCertificates(policy: string) returns (r: Option<set<string>>)
      modifies this`calls
      ensures r == if replies(old(calls)).Done? then Some(Mine(policy, certificates)) else None
    {
      var reply := replies(calls);
      calls := calls + 1;
      return if reply.Done? then Some(Mine(policy, certificates)) else None;
    }

    /** Creates or updates a Certificate, unless another policy owns it. */
    method EnsureCertificate(policy: string, d: DesiredCertificate) returns (done: bool)
      modifies this`calls, this`certificates
      ensures certificates == if replies(old(calls)).Refused? || Foreign(policy, old(certificates), d.request.name) then old(certificates)
                              else Put(policy, old(certificates), d.request.name, CertificateFor(d))
      ensures done <==> replies(old(calls)).Done? && !Foreign(policy, old(certificates), d.request.name)
    {
      var reply := replies(calls);
      calls := calls + 1;
      if reply.Refused? || Foreign(policy, certificates, d.request.name) {
        return false;
      }
      certificates := Put(policy, certificates, d.request.name, CertificateFor(d));
      return reply.Done?;
    }

    /** Creates or updates a sync, unless another policy owns it. */
    method EnsureSync(policy: string, d: DesiredCertificate) returns (done: bool)
      modifies this`calls, this`syncs
      ensures syncs == if replies(old(calls)).Refused? || Foreign(policy, old(syncs), d.request.name) then old(syncs)
                       else Put(policy, old(syncs), d.request.name, SyncFor(d))
      ensures done <==> replies(old(calls)).Done? && !Foreign(policy, old(syncs), d.request.name)
    {
      var reply := replies(calls);
      calls := calls + 1;
      if reply.Refused? || Foreign(policy, syncs, d.request.name) {
        return false;
      }
      syncs := Put(policy, syncs, d.request.name, SyncFor(d));
      return reply.Done?;
    }

    method DeleteSync(name: string) returns (done: bool)
      modifies this`calls, this`syncs
      ensures syncs == if replies(old(calls)).Refused? then old(syncs) else old(syncs) - {name}
      ensures done <==> replies(old(calls)).Done?
    {
      var reply := replies(calls);
      calls := calls + 1;
      if !reply.Refused? {
        syncs := syncs - {name};
      }
      return reply.Done?;
    }

    method DeleteCertificate(name: string) returns (done: bool)
      modifies this`calls, this`certificates
      ensures certificates == if replies(old(calls)).Refused? then old(certificates) else old(certificates) - {name}
      ensures done <==> replies(old(calls)).Done?
    {
      var reply := replies(calls);
      calls := calls + 1;
      if !reply.Refused? {
        certificates := certificates - {name};
      }
      return reply.Done?;
    }
  }
}
