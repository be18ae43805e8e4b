/**
 * The hash-chained incident ledger: an append-only sequence of blocks, each
 * binding its position, timestamp and payload digest to the hash of the
 * block before it.
 *
 * SHA-256 and `json.dumps(..., sort_keys=True)` are not implemented here:
 * they are the two function-valued fields of `Hashing`, which every
 * operation takes as a parameter, so every result holds for every choice
 * of them. Wall-clock timestamps are parameters as well.
 */
module BlockchainSimulator {

  import opened Wrappers
  import opened Decimal
  import opened Sequences

  /** The JSON scalars an incident payload carries. */
  datatype JsonValue = JsonNull | JsonBool(b: bool) | JsonInt(i: int) | JsonString(s: string)

  /** A payload is a finite map, so two payloads built in different key orders are
      the same value and hash alike. */
  type Payload = map<string, JsonValue>

  /** `sha256` stands for `hashlib.sha256(text.encode("utf-8")).hexdigest()`,
      `dumps` for `json.dumps(payload, sort_keys=True)`. */
  datatype Hashing = Hashing(sha256: string -> string, dumps: Payload -> string)

  datatype Block = Block(
    index: int,
    timestamp: string,
    incidentHash: string,
    payload: Payload,
    previousHash: string,
    blockHash: string)

  datatype Ledger = Ledger(chain: seq<Block>)

  /** What `add_incident` returns: the grown ledger and the block it appended. */
  datatype Appended = Appended(ledger: Ledger, block: Block)

  const GENESIS_PAYLOAD: Payload := map["genesis" := JsonBool(true)]

  /** The sentinel standing in for the predecessor hash of block 0. */
  const GENESIS_PREVIOUS_HASH: string := "0"

  /** `_hash_payload`: the digest of the key-sorted JSON text of the payload. */
  function HashPayload(h: Hashing, payload: Payload): string {
    h.sha256(h.dumps(payload))
  }

  /** The text `f"{index}|{timestamp}|{incident_hash}|{previous_hash}"`. */
  function BlockPreimage(index: int, timestamp: string, incidentHash: string, previousHash: string): string {
    IntToDecimal(index) + "|" + timestamp + "|" + incidentHash + "|" + previousHash
  }

  /** `_compute_block_hash`. */
  function ComputeBlockHash(h: Hashing, index: int, timestamp: string, incidentHash: string, previousHash: string): string {
    h.sha256(BlockPreimage(index, timestamp, incidentHash, previousHash))
  }

  /** The preimage is the four fields in order, separated by '|': the leading
      field reads back as the index, and the other three appear verbatim. */
  lemma BlockPreimageLayout(index: int, timestamp: string, incidentHash: string, previousHash: string)
    ensures var text, n, t := BlockPreimage(index, timestamp, incidentHash, previousHash), |IntToDecimal(index)|, |timestamp|;
      && |text| == n + t + |incidentHash| + |previousHash| + 3
      && ParseDecimal(text[..n]) == Some(index)
      && text[n] == '|'
      && text[n + 1..n + 1 + t] == timestamp
      && text[n + 1 + t] == '|'
      && text[n + 2 + t..n + 2 + t + |incidentHash|] == incidentHash
      && text[n + 2 + t + |incidentHash|] == '|'
      && text[n + 3 + t + |incidentHash|..] == previousHash
  {
    JoinLayout(IntToDecimal(index), timestamp, incidentHash, previousHash, '|');
    IntToDecimalRoundTrip(index);
  }

  /** A block whose stored hash is the hash of its own four hashed fields. */
  predicate HashConsistent(h: Hashing, b: Block) {
    b.blockHash == ComputeBlockHash(h, b.index, b.timestamp, b.incidentHash, b.previousHash)
  }

  /** Block `i` names block `i - 1`'s hash as its predecessor. */
  predicate LinkedAt(chain: seq<Block>, i: int)
    requires 1 <= i < |chain|
  {
    chain[i].previousHash == chain[i - 1].blockHash
  }

  /** Exactly what `verify_chain` checks: every block after the first links to its
      predecessor and carries its own recomputed hash. The payload, the index
      against the position, and every field of block 0 except the hash block 1
      links to are not looked at. */
  predicate ChainValid(h: Hashing, chain: seq<Block>) {
    forall i :: 1 <= i < |chain| ==> LinkedAt(chain, i) && HashConsistent(h, chain[i])
  }

  /** The genesis block of a ledger created at time `timestamp`. */
  predicate IsGenesis(h: Hashing, b: Block) {
    && b.index == 0
    && b.payload == GENESIS_PAYLOAD
    && b.incidentHash == HashPayload(h, GENESIS_PAYLOAD)
    && b.previousHash == GENESIS_PREVIOUS_HASH
    && HashConsistent(h, b)
  }

  /** `_genesis_block`. */
  function GenesisBlock(h: Hashing, timestamp: string): (b: Block)
    ensures IsGenesis(h, b) && b.timestamp == timestamp
  {
    var incidentHash := HashPayload(h, GENESIS_PAYLOAD);
    var blockHash := ComputeBlockHash(h, 0, timestamp, incidentHash, GENESIS_PREVIOUS_HASH);
    Block(0, timestamp, incidentHash, GENESIS_PAYLOAD, GENESIS_PREVIOUS_HASH, blockHash)
  }

  /** `IncidentLedger()`: a ledger holding only its genesis block, which verifies. */
  function NewLedger(h: Hashing, timestamp: string): (l: Ledger)
    ensures |l.chain| == 1 && IsGenesis(h, l.chain[0]) && l.chain[0].timestamp == timestamp
    ensures ChainValid(h, l.chain)
  {
    Ledger([GenesisBlock(h, timestamp)])
  }

  /** `add_incident`: appends one block, stamped `timestamp`, carrying `payload`, and
      returns it. Every block already in the ledger is kept as it was; the new block
      takes the next index, links to the old tail, and hashes consistently. The
      ledger always holds its genesis block, which `chain[-1]` relies on. */
  function AddIncident(h: Hashing, l: Ledger, timestamp: string, payload: Payload): (r: Appended)
    requires l.chain != []
    ensures r.ledger.chain == l.chain + [r.block]
    ensures r.block.index == |l.chain|
    ensures r.block.previousHash == l.chain[|l.chain| - 1].blockHash
    ensures r.block.timestamp == timestamp && r.block.payload == payload
    ensures r.block.incidentHash == HashPayload(h, payload)
    ensures HashConsistent(h, r.block)
  {
    var previous := l.chain[|l.chain| - 1];
    var index := |l.chain|;
    var incidentHash := HashPayload(h, payload);
    var blockHash := ComputeBlockHash(h, index, timestamp, incidentHash, previous.blockHash);
    var block := Block(index, timestamp, incidentHash, payload, previous.blockHash, blockHash);
    Appended(Ledger(l.chain + [block]), block)
  }

  /** Appending a block that links to the tail and hashes consistently keeps a
      verifying chain verifying. */
  lemma AppendPreservesValidity(h: Hashing, chain: seq<Block>, b: Block)
    requires chain != [] && ChainValid(h, chain)
    requires b.previousHash == chain[|chain| - 1].blockHash && HashConsistent(h, b)
    ensures ChainValid(h, chain + [b])
  {
    var chain' := chain + [b];
    forall i | 1 <= i < |chain'|
      ensures LinkedAt(chain', i) && HashConsistent(h, chain'[i])
    {
      if i < |chain| {
        assert chain'[i] == chain[i] && chain'[i - 1] == chain[i - 1];
        assert LinkedAt(chain, i) && HashConsistent(h, chain[i]);
      } else {
        assert chain'[i] == b && chain'[i - 1] == chain[|chain| - 1];
      }
    }
  }

  /** Appending to a chain that verifies gives a chain that verifies. */
  lemma AddIncidentPreservesValidity(h: Hashing, l: Ledger, timestamp: string, payload: Payload)
    requires l.chain != [] && ChainValid(h, l.chain)
    ensures ChainValid(h, AddIncident(h, l, timestamp, payload).ledger.chain)
  {
    var r := AddIncident(h, l, timestamp, payload);
    assert r.block.previousHash == l.chain[|l.chain| - 1].blockHash && HashConsistent(h, r.block);
    AppendPreservesValidity(h, l.chain, r.block);
    assert r.ledger.chain == l.chain + [r.block];
  }

  /** `verify_chain`: walks the chain from block 1, stopping at the first block that
      does not link to its predecessor or whose stored hash differs from its
      recomputed hash. */
  method VerifyChain(h: Hashing, chain: seq<Block>) returns (ok: bool)
    ensures ok <==> ChainValid(h, chain)
  {
    var i := 1;
    while i < |chain|
      invariant 1 <= i
      invariant forall j :: 1 <= j < i && j < |chain| ==> LinkedAt(chain, j) && HashConsistent(h, chain[j])
    {
      var current := chain[i];
      var previous := chain[i - 1];
      if current.previousHash != previous.blockHash {
        assert !LinkedAt(chain, i);
        return false;
      }
      if !HashConsistent(h, current) {
        assert !HashConsistent(h, chain[i]);
        return false;
      }
      i := i + 1;
    }
    return true;
  }

}
