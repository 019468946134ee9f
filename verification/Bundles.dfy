/** A Secret's certificates parsed into leaf, chain and key (certificate.go), and its digests. */
module Bundles {
  import opened Outcomes
  import opened Sorting
  import opened Chains

  /** One PEM block: its type and its contents. */
  datatype Block = Block(isCertificate: bool, contents: Bytes)

  /** The key is represented by its public half. */
  datatype Bundle = Bundle(leaf: Certificate, chain: seq<Certificate>, key: Bytes)

  // ----- Parsing -----

  function ContentsOf(block: Block): Bytes {
    block.contents
  }

  /** What the certificate blocks hold, in order. */
  function CertificateBlocks(blocks: seq<Block>): seq<Bytes> {
    Map(ContentsOf, Select((b: Block) => b.isCertificate, blocks))
  }

  /** The certificates of a file: other block types are ignored, but every certificate has to parse. */
  function CertificatesIn(x: X509, blocks: seq<Block>): Result<seq<Certificate>> {
    var certs := CertificateBlocks(blocks);
    if exists c :: c in certs && !x.parses(c) then Err(UnparsableCertificate)
    else if certs == [] then Err(NoCertificates)
    else Ok(certs)
  }

  lemma NextBlock(blocks: seq<Block>)
    requires blocks != []
    ensures CertificateBlocks(blocks) ==
            (if blocks[0].isCertificate then [blocks[0].contents] else []) + CertificateBlocks(blocks[1..])
  {
    var first, rest := if blocks[0].isCertificate then [blocks[0]] else [], Select((b: Block) => b.isCertificate, blocks[1..]);
    MapAppend(ContentsOf, first, rest);
    assert Map(ContentsOf, first) == if blocks[0].isCertificate then [blocks[0].contents] else [];
  }

  lemma NoBlocks()
    ensures CertificateBlocks([]) == []
  {
  }

  method ParseCertificates(x: X509, blocks: seq<Block>) returns (r: Result<seq<Certificate>>)
    ensures r == CertificatesIn(x, blocks)
  {
    hide CertificateBlocks;
    NoBlocks();
    var certs: seq<Certificate> := [];
    ghost var all := CertificateBlocks(blocks);
    assert blocks[0..] == blocks && [] + all == all;
    for i := 0 to |blocks|
      invariant certs + CertificateBlocks(blocks[i..]) == all
      invariant forall c | c in certs :: x.parses(c)
    {
      assert blocks[i..][0] == blocks[i] && blocks[i..][1..] == blocks[i + 1..];
      NextBlock(blocks[i..]);
      if !blocks[i].isCertificate {
        continue;
      }
      if !x.parses(blocks[i].contents) {
        assert all[|certs|] == blocks[i].contents && blocks[i].contents in all;
        return Err(UnparsableCertificate);
      }
      certs := certs + [blocks[i].contents];
    }
    assert blocks[|blocks|..] == [] && certs + [] == certs;
    if |certs| == 0 {
      return Err(NoCertificates);
    }
    return Ok(certs);
  }

  /** The certificates of a file stand at these indices among its blocks. */
  ghost predicate TakenFrom(blocks: seq<Block>, at: seq<nat>, certs: seq<Certificate>) {
    && |at| == |certs| && (forall i, j | 0 <= i < j < |at| :: at[i] < at[j])
    && (forall i | 0 <= i < |at| :: at[i] < |blocks| && blocks[at[i]].isCertificate && certs[i] == blocks[at[i]].contents)
    && forall k: nat | k < |blocks| && blocks[k].isCertificate :: k in at
  }

  lemma {:induction false} BlocksMean(blocks: seq<Block>) returns (at: seq<nat>)
    ensures TakenFrom(blocks, at, CertificateBlocks(blocks))
  {
    hide CertificateBlocks, TakenFrom;
    if blocks == [] {
      NoBlocks();
      at := [];
      NothingTaken();
    } else {
      var init, last := blocks[..|blocks| - 1], blocks[|blocks| - 1];
      at := BlocksMean(init);
      LastBlock(blocks);
      OneMoreTaken(blocks, at, CertificateBlocks(init));
      at := at + if last.isCertificate then [|blocks| - 1] else [];
    }
  }

  lemma NothingTaken()
    ensures TakenFrom([], [], [])
  {
  }

  lemma OneMoreTaken(blocks: seq<Block>, at: seq<nat>, certs: seq<Certificate>)
    requires blocks != [] && TakenFrom(blocks[..|blocks| - 1], at, certs)
    ensures var last := blocks[|blocks| - 1];
            TakenFrom(blocks, at + (if last.isCertificate then [|blocks| - 1] else []), certs + if last.isCertificate then [last.contents] else [])
  {
    var init, last := blocks[..|blocks| - 1], blocks[|blocks| - 1];
    var more: seq<nat> := at + if last.isCertificate then [|blocks| - 1] else [];
    assert more[..|at|] == at;
    forall k: nat | k < |blocks| && blocks[k].isCertificate
      ensures k in more
    {
      if k < |init| {
        assert init[k].isCertificate;
        assert k in at;
      } else {
        assert more[|at|] == k;
      }
    }
  }

  lemma {:induction false} LastBlock(blocks: seq<Block>)
    requires blocks != []
    ensures var init, last := blocks[..|blocks| - 1], blocks[|blocks| - 1];
            CertificateBlocks(blocks) == CertificateBlocks(init) + if last.isCertificate then [last.contents] else []
  {
    hide CertificateBlocks;
    NextBlock(blocks);
    NoBlocks();
    if |blocks| > 1 {
      var rest := blocks[1..];
      LastBlock(rest);
      var init := blocks[..|blocks| - 1];
      NextBlock(init);
      assert init[1..] == rest[..|rest| - 1];
    } else {
      assert blocks[1..] == [] && blocks[..0] == [];
    }
  }

  /** The certificates of a file are its certificate blocks, in order; one that does not parse is an error, and so is none. */
  lemma CertificatesInMeans(x: X509, blocks: seq<Block>) returns (at: seq<nat>)
    ensures var r := CertificatesIn(x, blocks);
            if exists b :: b in blocks && b.isCertificate && !x.parses(b.contents) then r == Err(UnparsableCertificate)
            else if forall b | b in blocks :: !b.isCertificate then r == Err(NoCertificates)
            else r.Ok? && TakenFrom(blocks, at, r.value)
  {
    hide CertificateBlocks;
    at := BlocksMean(blocks);
    var certs := CertificateBlocks(blocks);
    if b :| b in blocks && b.isCertificate {
      var k: nat :| k < |blocks| && blocks[k] == b;
      assert k in at;
    }
    forall b | b in blocks && b.isCertificate
      ensures b.contents in certs
    {
      var k: nat :| k < |blocks| && blocks[k] == b;
      var i :| 0 <= i < |at| && at[i] == k;
      assert certs[i] == b.contents;
    }
    if c :| c in certs && !x.parses(c) {
      var i :| 0 <= i < |certs| && certs[i] == c;
      assert blocks[at[i]] in blocks;
    }
  }

  function LeafAt(x: X509, certs: seq<Certificate>, key: Bytes): (i: nat)
    ensures i <= |certs|
  {
    FirstWhere((c: Certificate) => x.publicKey(c) == key, certs)
  }

  /** The leaf is the first certificate whose public key matches, wherever it stands. */
  method SelectLeaf(x: X509, certs: seq<Certificate>, key: Bytes) returns (r: Result<(Certificate, seq<Certificate>)>)
    ensures var i := LeafAt(x, certs, key);
            r == if i == |certs| then Err(KeyMismatch) else Ok((certs[i], RemoveAt(certs, i)))
  {
    var matches := (c: Certificate) => x.publicKey(c) == key;
    for i := 0 to |certs|
      invariant forall k | 0 <= k < i :: !matches(certs[k])
    {
      if x.publicKey(certs[i]) == key {
        assert certs == certs[..i] + ([certs[i]] + certs[i + 1..]);
        FirstAfter(matches, certs[..i], certs[i], certs[i + 1..]);
        return Ok((certs[i], RemoveAt(certs, i)));
      }
    }
    FirstNowhere(matches, certs);
    return Err(KeyMismatch);
  }

  function BundleOf(x: X509, certs: seq<Certificate>, key: Bytes): Result<Bundle> {
    var i := LeafAt(x, certs, key);
    if i == |certs| then Err(KeyMismatch) else Ok(Bundle(certs[i], OrderedChain(x, certs[i], RemoveAt(certs, i)), key))
  }

  /**
   The bundle of a Secret: the first certificate whose public key is the key's, and the others
   in the order of the chain; a mismatch if there is no such certificate.
   */
  lemma BundleMeans(x: X509, certs: seq<Certificate>, key: Bytes) returns (i: nat)
    ensures i <= |certs| && (forall k | 0 <= k < i :: x.publicKey(certs[k]) != key) && (i < |certs| ==> x.publicKey(certs[i]) == key)
    ensures BundleOf(x, certs, key) == if i == |certs| then Err(KeyMismatch)
                                       else Ok(Bundle(certs[i], OrderedChain(x, certs[i], certs[..i] + certs[i + 1..]), key))
  {
    i := LeafAt(x, certs, key);
  }

  /** The whole of a Secret; the private key is already parsed, or was not there. */
  method ParseBundle(x: X509, blocks: seq<Block>, key: Option<Bytes>) returns (r: Result<Bundle>)
    ensures r == match CertificatesIn(x, blocks)
                 case Err(e) => Err(e)
                 case Ok(certs) => if key.None? then Err(NoPrivateKey) else BundleOf(x, certs, key.value)
  {
    var certs := ParseCertificates(x, blocks);
    if certs.Err? {
      return Err(certs.error);
    }
    if key.None? {
      return Err(NoPrivateKey);
    }
    var leaf := SelectLeaf(x, certs.value, key.value);
    if leaf.Err? {
      return Err(leaf.error);
    }
    var chain := OrderChain(x, leaf.value.0, leaf.value.1);
    return Ok(Bundle(leaf.value.0, chain, key.value));
  }

  // ----- The order of the Secret -----

  /** Whether all certificates that match the key are one and the same. */
  ghost predicate OneLeaf(x: X509, certs: multiset<Certificate>, key: Bytes) {
    forall c, d | c in certs && d in certs && x.publicKey(c) == key && x.publicKey(d) == key :: c == d
  }

  /** No step of parsing depends on the order: one leaf, and a chain never in two minds. */
  ghost predicate OrderFree(x: X509, certs: multiset<Certificate>, key: Bytes) {
    && OneLeaf(x, certs, key)
    && forall c | c in certs && x.publicKey(c) == key :: Unambiguous(x, c, certs - multiset{c})
  }

  /**
   Reordering the certificates of a Secret changes nothing about its bundle exactly when one
   certificate matches the key and every step of the chain has at most one best issuer.
   */
  lemma BundleIgnoresOrderIff(x: X509, certs: seq<Certificate>, key: Bytes)
    ensures OrderFree(x, multiset(certs), key) <==>
            forall other | multiset(other) == multiset(certs) :: BundleOf(x, other, key) == BundleOf(x, certs, key)
  {
    if OrderFree(x, multiset(certs), key) {
      forall other | multiset(other) == multiset(certs)
        ensures BundleOf(x, other, key) == BundleOf(x, certs, key)
      {
        OrderFreeBundle(x, certs, other, key);
      }
    } else {
      var a, b := OrderMatters(x, multiset(certs), key);
    }
  }

  lemma LeafIs(x: X509, certs: seq<Certificate>, key: Bytes)
    ensures var i := LeafAt(x, certs, key);
            if i < |certs| then certs[i] in multiset(certs) && x.publicKey(certs[i]) == key
            else forall c | c in multiset(certs) :: x.publicKey(c) != key
  {
  }

  lemma OrderFreeBundle(x: X509, a: seq<Certificate>, b: seq<Certificate>, key: Bytes)
    requires multiset(a) == multiset(b) && OrderFree(x, multiset(a), key)
    ensures BundleOf(x, a, key) == BundleOf(x, b, key)
  {
    hide Unambiguous, OrderedChain, Walk;
    var i, j := LeafAt(x, a, key), LeafAt(x, b, key);
    LeafIs(x, a, key);
    LeafIs(x, b, key);
    if i < |a| && j < |b| {
      assert a[i] == b[j];
      RemovedOne(a, i);
      RemovedOne(b, j);
      OrderIsIrrelevantIff(x, a[i], RemoveAt(a, i));
    }
  }

  /** A certificate listed first is the leaf when it matches the key. */
  lemma LeafFirst(x: X509, leaf: Certificate, rest: seq<Certificate>, key: Bytes)
    requires x.publicKey(leaf) == key
    ensures BundleOf(x, [leaf] + rest, key) == Ok(Bundle(leaf, OrderedChain(x, leaf, rest), key))
  {
    assert RemoveAt([leaf] + rest, 0) == rest;
  }

  lemma OrderMatters(x: X509, certs: multiset<Certificate>, key: Bytes) returns (a: seq<Certificate>, b: seq<Certificate>)
    requires !OrderFree(x, certs, key)
    ensures multiset(a) == multiset(b) == certs && BundleOf(x, a, key) != BundleOf(x, b, key)
  {
    if c, d :| c in certs && d in certs && x.publicKey(c) == key && x.publicKey(d) == key && c != d {
      a, b := [c] + Listed(certs - multiset{c}), [d] + Listed(certs - multiset{d});
      LeafFirst(x, c, Listed(certs - multiset{c}), key);
      LeafFirst(x, d, Listed(certs - multiset{d}), key);
      FrontAndRest(certs, c);
      FrontAndRest(certs, d);
    } else {
      var c :| c in certs && x.publicKey(c) == key && !Unambiguous(x, c, certs - multiset{c});
      a, b := ChainMatters(x, certs, c, key);
    }
  }

  lemma FrontAndRest(certs: multiset<Certificate>, c: Certificate)
    requires c in certs
    ensures multiset([c] + Listed(certs - multiset{c})) == certs
  {
  }

  lemma ChainMatters(x: X509, certs: multiset<Certificate>, c: Certificate, key: Bytes) returns (a: seq<Certificate>, b: seq<Certificate>)
    requires c in certs && x.publicKey(c) == key && !Unambiguous(x, c, certs - multiset{c})
    ensures multiset(a) == multiset(b) == certs && BundleOf(x, a, key) != BundleOf(x, b, key)
  {
    hide Unambiguous, Walk, BundleOf, OrderedChain;
    var p, q, k := AmbiguousWalksDiffer(x, c, certs - multiset{c});
    a, b := [c] + p, [c] + q;
    LeafFirst(x, c, p, key);
    LeafFirst(x, c, q, key);
    DifferentWalksDifferentChains(x, c, p, q, k);
  }

  lemma DifferentWalksDifferentChains(x: X509, leaf: Certificate, p: seq<Certificate>, q: seq<Certificate>, k: nat)
    requires DifferAt(Walk(x, leaf, p).0, Walk(x, leaf, q).0, k)
    ensures OrderedChain(x, leaf, p) != OrderedChain(x, leaf, q)
  {
    hide Walk, Sort;
    assert OrderedChain(x, leaf, p)[k] == Walk(x, leaf, p).0[k];
    assert OrderedChain(x, leaf, q)[k] == Walk(x, leaf, q).0[k];
  }

  /** The leaf is in its own chain exactly when the Secret holds it more than once. */
  lemma LeafInChainIff(x: X509, certs: seq<Certificate>, key: Bytes)
    requires BundleOf(x, certs, key).Ok?
    ensures var b := BundleOf(x, certs, key).value; b.leaf in b.chain <==> multiset(certs)[b.leaf] >= 2
  {
    hide OrderedChain;
    var i := LeafAt(x, certs, key);
    var chain := OrderedChain(x, certs[i], RemoveAt(certs, i));
    RemovedOne(certs, i);
    ChainConserves(x, certs[i], RemoveAt(certs, i));
    assert certs[i] in chain <==> certs[i] in multiset(chain);
  }

  /** A leaf listed twice is such a Secret. */
  lemma RepeatedLeafIsInChain(x: X509, leaf: Certificate)
    ensures var b := BundleOf(x, [leaf, leaf], x.publicKey(leaf)); b.Ok? && b.value.leaf == leaf && leaf in b.value.chain
  {
    LeafInChainIff(x, [leaf, leaf], x.publicKey(leaf));
  }

  // ----- Digests -----

  /** SHA-1 of the leaf, and SHA-256 in hexadecimal; the hashes stay abstract. */
  datatype Hashes = Hashes(sha1: Bytes -> Bytes, sha256: Bytes -> string)

  function Thumbprint(h: Hashes, bundle: Bundle): Bytes {
    h.sha1(bundle.leaf)
  }

  function DigestOf(h: Hashes, bundle: Bundle): string {
    h.sha256(bundle.leaf + Concat(bundle.chain))
  }

  /** Writes the leaf and then each certificate into the hash. */
  method ChainDigest(h: Hashes, bundle: Bundle) returns (digest: string)
    ensures digest == DigestOf(h, bundle)
  {
    var written := bundle.leaf;
    for i := 0 to |bundle.chain|
      invariant written + Concat(bundle.chain[i..]) == bundle.leaf + Concat(bundle.chain)
    {
      assert bundle.chain[i..][1..] == bundle.chain[i + 1..];
      written := written + bundle.chain[i];
    }
    assert bundle.chain[|bundle.chain|..] == [] && written + [] == written;
    return h.sha256(written);
  }

  /** No encoding is empty or the beginning of another, as definite lengths ensure (section 10.1 of X.690). */
  ghost predicate PrefixFree(certs: set<Certificate>) {
    [] !in certs && forall c, d | c in certs && d in certs && c <= d :: c == d
  }

  lemma ConcatNotEmpty(a: seq<Certificate>)
    requires [] !in Elements(a)
    ensures Concat(a) == [] <==> a == []
  {
    assert a != [] ==> a[0] in Elements(a);
  }

  /** Two beginnings of one string: the shorter begins the longer. */
  lemma CommonBeginning(whole: Bytes, c: Bytes, d: Bytes)
    requires c <= whole && d <= whole
    ensures c <= d || d <= c
  {
    if |c| <= |d| {
      assert c == d[..|c|];
    }
  }

  /** A concatenation of prefix-free encodings can be taken apart in one way only. */
  lemma {:induction false} ConcatIsDecodable(a: seq<Certificate>, b: seq<Certificate>)
    requires PrefixFree(Elements(a) + Elements(b)) && Concat(a) == Concat(b)
    ensures a == b
    decreases a
  {
    ConcatNotEmpty(a);
    ConcatNotEmpty(b);
    if a != [] {
      assert a[0] in Elements(a) && b[0] in Elements(b);
      CommonBeginning(Concat(a), a[0], b[0]);
      assert Concat(a[1..]) == Concat(a)[|a[0]|..] && Concat(b[1..]) == Concat(b)[|b[0]|..];
      assert Elements(a[1..]) <= Elements(a) && Elements(b[1..]) <= Elements(b);
      ConcatIsDecodable(a[1..], b[1..]);
      assert a == [a[0]] + a[1..] && b == [b[0]] + b[1..];
    }
  }

  /** The certificates of a bundle, leaf first. */
  function Encodings(bundle: Bundle): seq<Certificate> {
    [bundle.leaf] + bundle.chain
  }

  /**
   Equal chain digests mean the same leaf and the same chain in the same order, as long as
   the hash does not collide on the two encodings compared.
   */
  lemma DigestDeterminesChain(h: Hashes, a: Bundle, b: Bundle)
    requires DigestOf(h, a) == DigestOf(h, b)
    requires h.sha256(Concat(Encodings(a))) == h.sha256(Concat(Encodings(b))) ==> Concat(Encodings(a)) == Concat(Encodings(b))
    requires PrefixFree(Elements(Encodings(a)) + Elements(Encodings(b)))
    ensures a.leaf == b.leaf && a.chain == b.chain
  {
    ConcatEncodings(a);
    ConcatEncodings(b);
    ConcatIsDecodable(Encodings(a), Encodings(b));
    assert Encodings(a)[0] == a.leaf && Encodings(a)[1..] == a.chain;
    assert Encodings(b)[0] == b.leaf && Encodings(b)[1..] == b.chain;
  }

  lemma ConcatEncodings(bundle: Bundle)
    ensures Concat(Encodings(bundle)) == bundle.leaf + Concat(bundle.chain)
  {
    assert Encodings(bundle)[1..] == bundle.chain;
  }
}
