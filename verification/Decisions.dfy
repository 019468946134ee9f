/** Whether a bundle has to be imported (decide.go, and Validate in certificate.go). */
module Decisions {
  import opened Outcomes
  import opened Sorting
  import opened Chains
  import opened Bundles

  /** The cheap view of what the vault holds; a missing tag reads as an empty digest. */
  datatype Snapshot = Snapshot(present: bool, thumbprint: Bytes, chainDigest: string, enabled: bool, notAfter: Option<int>)

  datatype Cause = AbsentInVault | LeafChanged | ChainChanged | UpToDate

  datatype Warning = NoWarning | ExpiryRegression | DisabledInVault

  datatype Decision = Decision(imports: bool, cause: Cause, warning: Warning)

  function Validate(x: X509, bundle: Bundle, now: int): Option<Error> {
    if now > x.notAfter(bundle.leaf) then Some(Expired)
    else if now < x.notBefore(bundle.leaf) then Some(NotYetValid)
    else if x.dnsNames(bundle.leaf) == [] then Some(NoDNSNames)
    else None
  }

  function Decide(x: X509, h: Hashes, desired: Option<Bundle>, snap: Snapshot, now: int): Result<Decision> {
    if desired.None? then Err(NoCertificates) else
    var bundle := desired.value;
    var problem := Validate(x, bundle, now);
    if problem.Some? then Err(problem.value)
    else if !snap.present then Ok(Decision(true, AbsentInVault, NoWarning))
    else
      var regression := if snap.notAfter.Some? && x.notAfter(bundle.leaf) < snap.notAfter.value then ExpiryRegression else NoWarning;
      var warning := if !snap.enabled then DisabledInVault else regression;
      if snap.thumbprint != Thumbprint(h, bundle) then Ok(Decision(true, LeafChanged, warning))
      else if snap.chainDigest != DigestOf(h, bundle) then Ok(Decision(true, ChainChanged, warning))
      else Ok(Decision(false, UpToDate, warning))
  }

  /** What identifies a stored certificate to the operator. */
  datatype Fingerprint = Fingerprint(thumbprint: Bytes, chainDigest: string)

  function FingerprintOf(h: Hashes, bundle: Bundle): Fingerprint {
    Fingerprint(Thumbprint(h, bundle), DigestOf(h, bundle))
  }

  /** The thumbprint is the SHA-1 of the leaf; the digest is the SHA-256 of the leaf and the chain after it. */
  lemma FingerprintMeans(h: Hashes, bundle: Bundle)
    ensures FingerprintOf(h, bundle) == Fingerprint(h.sha1(bundle.leaf), h.sha256(Concat([bundle.leaf] + bundle.chain)))
  {
    ConcatEncodings(bundle);
  }

  /** A usable bundle is imported exactly when the vault does not hold its fingerprint. */
  lemma DecideImportsIff(x: X509, h: Hashes, bundle: Bundle, snap: Snapshot, now: int)
    ensures var r := Decide(x, h, Some(bundle), snap, now);
            && (r.Ok? <==> x.notBefore(bundle.leaf) <= now <= x.notAfter(bundle.leaf) && x.dnsNames(bundle.leaf) != [])
            && (r.Err? ==> r.error == if now > x.notAfter(bundle.leaf) then Expired
                                      else if now < x.notBefore(bundle.leaf) then NotYetValid
                                      else NoDNSNames)
            && (r.Ok? ==> (r.value.imports <==> !(snap.present && Fingerprint(snap.thumbprint, snap.chainDigest) == FingerprintOf(h, bundle))))
    ensures var r := Decide(x, h, Some(bundle), snap, now);
            r.Ok? ==>
              && (r.value.imports <==> r.value.cause != UpToDate)
              && (r.value.cause == AbsentInVault <==> !snap.present)
              && (r.value.cause == LeafChanged <==> snap.present && snap.thumbprint != h.sha1(bundle.leaf))
              && (r.value.cause == ChainChanged <==>
                    snap.present && snap.thumbprint == h.sha1(bundle.leaf) && snap.chainDigest != h.sha256(Concat([bundle.leaf] + bundle.chain)))
              && (r.value.warning.ExpiryRegression? <==>
                    snap.present && snap.enabled && snap.notAfter.Some? && x.notAfter(bundle.leaf) < snap.notAfter.value)
              && (r.value.warning.DisabledInVault? <==> snap.present && !snap.enabled)
  {
    FingerprintMeans(h, bundle);
  }

  /** Disabling a certificate, or changing the expiry the vault reports, never causes an import: it only warns. */
  lemma OnlyTheFingerprintDecides(x: X509, h: Hashes, bundle: Bundle, a: Snapshot, b: Snapshot, now: int)
    requires a.(enabled := b.enabled, notAfter := b.notAfter) == b
    ensures var ra, rb := Decide(x, h, Some(bundle), a, now), Decide(x, h, Some(bundle), b, now);
            if ra.Ok? then rb.Ok? && ra.value.(warning := rb.value.warning) == rb.value else ra == rb
    ensures var ra := Decide(x, h, Some(bundle), a, now);
            ra.Ok? ==> (ra.value.warning.DisabledInVault? <==> a.present && !a.enabled)
  {
  }

  /**
   Reordering the certificates of a Secret never causes an import. Against what importing the
   bundle once has stored, any order of the same certificates is up to date, provided one
   certificate matches the key and no chain step is ambiguous.
   */
  lemma ReorderingNeverImports(x: X509, h: Hashes, certs: seq<Certificate>, other: seq<Certificate>, key: Bytes, snap: Snapshot, now: int)
    requires multiset(certs) == multiset(other) && OrderFree(x, multiset(certs), key)
    requires BundleOf(x, certs, key).Ok?
    requires snap.present && Fingerprint(snap.thumbprint, snap.chainDigest) == FingerprintOf(h, BundleOf(x, certs, key).value)
    ensures BundleOf(x, other, key).Ok?
    ensures var r := Decide(x, h, Some(BundleOf(x, other, key).value), snap, now); r.Ok? ==> !r.value.imports && r.value.cause == UpToDate
  {
    OrderFreeBundle(x, certs, other, key);
  }
}
