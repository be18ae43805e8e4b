/**
 * What `verify_chain` detects and what it lets through. Changing a hashed
 * field of a block after block 0 without recomputing its hash is detected,
 * provided SHA-256 has no collisions (stated explicitly as `Injective`);
 * changing a stored hash or a link is detected outright. Changing a payload,
 * renumbering the last block, or rewriting block 0 behind an unchanged hash
 * is not.
 */
module TamperEvidence {

  import opened Decimal
  import opened BlockchainSimulator
  import opened LedgerInvariants

  /** Distinct inputs give distinct outputs. For SHA-256 this is collision-freedom,
      the assumption under which a changed preimage is guaranteed to change the
      hash; for `json.dumps(..., sort_keys=True)` it says distinct payloads
      serialise to distinct texts. */
  ghost predicate Injective<A(!new), B>(f: A -> B) {
    forall x, y :: f(x) == f(y) ==> x == y
  }

  /** Equal text around two pieces forces the pieces to be equal. */
  lemma FramedEqual(before: string, x: string, y: string, after: string)
    requires before + x + after == before + y + after
    ensures x == y
  {
    var s := before + x + after;
    assert |x| == |y|;
    assert x == s[|before|..|before| + |x|];
  }

  /** Text followed by the same suffix is equal only if the text is. */
  lemma SuffixedEqual(x: string, y: string, after: string)
    requires x + after == y + after
    ensures x == y
  {
    assert x == (x + after)[..|x|];
  }

  /** The preimage tells apart two blocks that differ only in their index. */
  lemma PreimageSeparatesIndex(i: int, i': int, t: string, ih: string, ph: string)
    requires BlockPreimage(i, t, ih, ph) == BlockPreimage(i', t, ih, ph)
    ensures i == i'
  {
    var rest := "|" + t + "|" + ih + "|" + ph;
    assert BlockPreimage(i, t, ih, ph) == IntToDecimal(i) + rest;
    assert BlockPreimage(i', t, ih, ph) == IntToDecimal(i') + rest;
    SuffixedEqual(IntToDecimal(i), IntToDecimal(i'), rest);
    IntToDecimalInjective(i, i');
  }

  /** The preimage tells apart two blocks that differ only in their timestamp. */
  lemma PreimageSeparatesTimestamp(i: int, t: string, t': string, ih: string, ph: string)
    requires BlockPreimage(i, t, ih, ph) == BlockPreimage(i, t', ih, ph)
    ensures t == t'
  {
    var d := IntToDecimal(i);
    assert BlockPreimage(i, t, ih, ph) == (d + "|") + t + ("|" + ih + "|" + ph);
    assert BlockPreimage(i, t', ih, ph) == (d + "|") + t' + ("|" + ih + "|" + ph);
    FramedEqual(d + "|", t, t', "|" + ih + "|" + ph);
  }

  /** The preimage tells apart two blocks that differ only in their payload digest. */
  lemma PreimageSeparatesIncidentHash(i: int, t: string, ih: string, ih': string, ph: string)
    requires BlockPreimage(i, t, ih, ph) == BlockPreimage(i, t, ih', ph)
    ensures ih == ih'
  {
    var d := IntToDecimal(i);
    assert BlockPreimage(i, t, ih, ph) == (d + "|" + t + "|") + ih + ("|" + ph);
    assert BlockPreimage(i, t, ih', ph) == (d + "|" + t + "|") + ih' + ("|" + ph);
    FramedEqual(d + "|" + t + "|", ih, ih', "|" + ph);
  }

  /** Position of the first '|' in `s`, or |s| when there is none. */
  function FirstBar(s: string): (n: nat)
    ensures n <= |s|
  {
    if s == [] || s[0] == '|' then 0 else 1 + FirstBar(s[1..])
  }

  lemma {:induction false} FirstBarOfJoin(a: string, b: string)
    requires '|' !in a
    ensures FirstBar(a + "|" + b) == |a|
  {
    if a != [] {
      assert (a + "|" + b)[1..] == a[1..] + "|" + b;
      assert a[0] in a;
      FirstBarOfJoin(a[1..], b);
    }
  }

  /** Two texts joined by '|' split back apart when the first contains no '|'. */
  lemma SplitAtBar(a: string, b: string, a': string, b': string)
    requires '|' !in a && '|' !in a'
    requires a + "|" + b == a' + "|" + b'
    ensures a == a' && b == b'
  {
    var s := a + "|" + b;
    FirstBarOfJoin(a, b);
    FirstBarOfJoin(a', b');
    assert a == s[..|a|] == a';
    assert b == s[|a| + 1..] == b';
  }

  /** With '|' absent from timestamps and payload digests (true of ISO-8601 times
      and hex digests), the preimage determines all four hashed fields. */
  lemma BlockPreimageInjective(
    i: int, t: string, ih: string, ph: string,
    i': int, t': string, ih': string, ph': string)
    requires '|' !in t && '|' !in ih && '|' !in t' && '|' !in ih'
    requires BlockPreimage(i, t, ih, ph) == BlockPreimage(i', t', ih', ph')
    ensures i == i' && t == t' && ih == ih' && ph == ph'
  {
    var d, d' := IntToDecimal(i), IntToDecimal(i');
    IntToDecimalAvoids(i, '|');
    IntToDecimalAvoids(i', '|');
    assert BlockPreimage(i, t, ih, ph) == d + "|" + (t + "|" + (ih + "|" + ph));
    assert BlockPreimage(i', t', ih', ph') == d' + "|" + (t' + "|" + (ih' + "|" + ph'));
    SplitAtBar(d, t + "|" + (ih + "|" + ph), d', t' + "|" + (ih' + "|" + ph'));
    SplitAtBar(t, ih + "|" + ph, t', ih' + "|" + ph');
    SplitAtBar(ih, ph, ih', ph');
    IntToDecimalInjective(i, i');
  }

  /** With a collision-free digest and a faithful serialisation, the payload digest
      identifies the payload. */
  lemma HashPayloadInjective(h: Hashing, p: Payload, q: Payload)
    requires Injective(h.sha256) && Injective(h.dumps)
    ensures HashPayload(h, p) == HashPayload(h, q) <==> p == q
  {
  }

  /** With a collision-free digest, and '|' absent from timestamps and payload
      digests, equal block hashes mean equal index, timestamp, payload digest and
      predecessor hash. */
  lemma ComputeBlockHashInjective(
    h: Hashing,
    i: int, t: string, ih: string, ph: string,
    i': int, t': string, ih': string, ph': string)
    requires Injective(h.sha256)
    requires '|' !in t && '|' !in ih && '|' !in t' && '|' !in ih'
    ensures ComputeBlockHash(h, i, t, ih, ph) == ComputeBlockHash(h, i', t', ih', ph')
      <==> (i == i' && t == t' && ih == ih' && ph == ph')
  {
    if ComputeBlockHash(h, i, t, ih, ph) == ComputeBlockHash(h, i', t', ih', ph') {
      BlockPreimageInjective(i, t, ih, ph, i', t', ih', ph');
    }
  }

  /** Changing the timestamp of a block after the first, without recomputing its
      hash, makes the chain fail verification. */
  lemma TimestampTamperDetected(h: Hashing, chain: seq<Block>, i: int, t: string)
    requires Injective(h.sha256)
    requires ChainValid(h, chain) && 1 <= i < |chain| && t != chain[i].timestamp
    ensures !ChainValid(h, chain[i := chain[i].(timestamp := t)])
  {
    var b := chain[i];
    if BlockPreimage(b.index, t, b.incidentHash, b.previousHash)
        == BlockPreimage(b.index, b.timestamp, b.incidentHash, b.previousHash) {
      PreimageSeparatesTimestamp(b.index, t, b.timestamp, b.incidentHash, b.previousHash);
    }
    var tampered := chain[i := b.(timestamp := t)];
    assert !HashConsistent(h, tampered[i]);
  }

  /** Changing the payload digest of a block after the first, without recomputing
      its hash, makes the chain fail verification. */
  lemma IncidentHashTamperDetected(h: Hashing, chain: seq<Block>, i: int, ih: string)
    requires Injective(h.sha256)
    requires ChainValid(h, chain) && 1 <= i < |chain| && ih != chain[i].incidentHash
    ensures !ChainValid(h, chain[i := chain[i].(incidentHash := ih)])
  {
    var b := chain[i];
    if BlockPreimage(b.index, b.timestamp, ih, b.previousHash)
        == BlockPreimage(b.index, b.timestamp, b.incidentHash, b.previousHash) {
      PreimageSeparatesIncidentHash(b.index, b.timestamp, ih, b.incidentHash, b.previousHash);
    }
    var tampered := chain[i := b.(incidentHash := ih)];
    assert !HashConsistent(h, tampered[i]);
  }

  /** Changing the index of a block after the first, without recomputing its hash,
      makes the chain fail verification. */
  lemma IndexTamperDetected(h: Hashing, chain: seq<Block>, i: int, index: int)
    requires Injective(h.sha256)
    requires ChainValid(h, chain) && 1 <= i < |chain| && index != chain[i].index
    ensures !ChainValid(h, chain[i := chain[i].(index := index)])
  {
    var b := chain[i];
    if BlockPreimage(index, b.timestamp, b.incidentHash, b.previousHash)
        == BlockPreimage(b.index, b.timestamp, b.incidentHash, b.previousHash) {
      PreimageSeparatesIndex(index, b.index, b.timestamp, b.incidentHash, b.previousHash);
    }
    var tampered := chain[i := b.(index := index)];
    assert !HashConsistent(h, tampered[i]);
  }

  /** Changing the predecessor hash of a block after the first breaks its link;
      no assumption on the digest is needed. */
  lemma PreviousHashTamperDetected(h: Hashing, chain: seq<Block>, i: int, ph: string)
    requires ChainValid(h, chain) && 1 <= i < |chain| && ph != chain[i].previousHash
    ensures !ChainValid(h, chain[i := chain[i].(previousHash := ph)])
  {
    assert !LinkedAt(chain[i := chain[i].(previousHash := ph)], i);
  }

  /** Changing the stored hash of any block in a chain of two or more blocks is
      detected: after block 0 by its own recomputation, at block 0 by block 1's link. */
  lemma BlockHashTamperDetected(h: Hashing, chain: seq<Block>, i: int, bh: string)
    requires ChainValid(h, chain) && 2 <= |chain| && 0 <= i < |chain| && bh != chain[i].blockHash
    ensures !ChainValid(h, chain[i := chain[i].(blockHash := bh)])
  {
    var tampered := chain[i := chain[i].(blockHash := bh)];
    if i == 0 {
      assert LinkedAt(chain, 1);
      assert !LinkedAt(tampered, 1);
    } else {
      assert HashConsistent(h, chain[i]);
      assert !HashConsistent(h, tampered[i]);
    }
  }

  /** Replacing any block's payload leaves the verdict unchanged: the stored payload
      digest is never recomputed. */
  lemma PayloadTamperUndetected(h: Hashing, chain: seq<Block>, i: int, payload: Payload)
    requires 0 <= i < |chain|
    ensures ChainValid(h, chain) <==> ChainValid(h, chain[i := chain[i].(payload := payload)])
  {
    var tampered := chain[i := chain[i].(payload := payload)];
    forall j | 1 <= j < |chain|
      ensures (LinkedAt(chain, j) && HashConsistent(h, chain[j]))
          <==> (LinkedAt(tampered, j) && HashConsistent(h, tampered[j]))
    {
    }
  }

  /** Block 0 is trusted as stored: any block carrying the same hash may replace it,
      whatever its index, timestamp, payload, digest or predecessor hash. */
  lemma GenesisContentUnchecked(h: Hashing, chain: seq<Block>, g: Block)
    requires chain != [] && g.blockHash == chain[0].blockHash
    ensures ChainValid(h, chain) <==> ChainValid(h, chain[0 := g])
  {
    var replaced := chain[0 := g];
    forall j | 1 <= j < |chain|
      ensures (LinkedAt(chain, j) && HashConsistent(h, chain[j]))
          <==> (LinkedAt(replaced, j) && HashConsistent(h, replaced[j]))
    {
    }
  }

  /** Indices are hashed but never compared with positions: the last block may be
      renumbered freely if its hash is recomputed, and the chain still verifies. */
  lemma RenumberedTailUndetected(h: Hashing, chain: seq<Block>, index: int)
    requires ChainValid(h, chain) && 2 <= |chain|
    ensures var last := chain[|chain| - 1];
      var renumbered := last.(index := index,
        blockHash := ComputeBlockHash(h, index, last.timestamp, last.incidentHash, last.previousHash));
      ChainValid(h, chain[|chain| - 1 := renumbered])
  {
    var n := |chain| - 1;
    var last := chain[n];
    var renumbered := last.(index := index,
      blockHash := ComputeBlockHash(h, index, last.timestamp, last.incidentHash, last.previousHash));
    var tampered := chain[n := renumbered];
    forall j | 1 <= j < |tampered|
      ensures LinkedAt(tampered, j) && HashConsistent(h, tampered[j])
    {
      assert LinkedAt(chain, j);
    }
  }

  /** In the two-incident scenario, overwriting block 1's payload digest without
      recomputing its hash is caught. */
  lemma CorruptionScenarioDetected(h: Hashing, t0: string, t1: string, t2: string, ih: string)
    requires Injective(h.sha256)
    requires ih != TwoIncidentLedger(h, t0, t1, t2).chain[1].incidentHash
    ensures var chain := TwoIncidentLedger(h, t0, t1, t2).chain;
      !ChainValid(h, chain[1 := chain[1].(incidentHash := ih)])
  {
    TwoIncidentScenario(h, t0, t1, t2);
    IncidentHashTamperDetected(h, TwoIncidentLedger(h, t0, t1, t2).chain, 1, ih);
  }

}
