/**
 * `to_dicts`: the ledger as a list of records, one per block, each holding
 * the block's six fields under their Python names. `DictToBlock` reads a
 * record back, which shows that nothing is lost in the export.
 */
module LedgerExport {

  import opened Wrappers
  import opened BlockchainSimulator

  datatype FieldValue = IntField(n: int) | TextField(text: string) | PayloadField(payload: Payload)

  /** One exported record, as `dataclasses.asdict` builds it. */
  type BlockDict = map<string, FieldValue>

  const BLOCK_FIELDS: set<string> :=
    {"index", "timestamp", "incident_hash", "payload", "previous_hash", "block_hash"}

  /** `asdict(block)`. */
  function BlockToDict(b: Block): (d: BlockDict)
    ensures d.Keys == BLOCK_FIELDS
  {
    map[
      "index" := IntField(b.index),
      "timestamp" := TextField(b.timestamp),
      "incident_hash" := TextField(b.incidentHash),
      "payload" := PayloadField(b.payload),
      "previous_hash" := TextField(b.previousHash),
      "block_hash" := TextField(b.blockHash)]
  }

  /** Reads a record back into a block; fails on a missing or ill-typed field. */
  function DictToBlock(d: BlockDict): Option<Block> {
    if && "index" in d && d["index"].IntField?
       && "timestamp" in d && d["timestamp"].TextField?
       && "incident_hash" in d && d["incident_hash"].TextField?
       && "payload" in d && d["payload"].PayloadField?
       && "previous_hash" in d && d["previous_hash"].TextField?
       && "block_hash" in d && d["block_hash"].TextField?
    then
      Some(Block(
        d["index"].n, d["timestamp"].text, d["incident_hash"].text,
        d["payload"].payload, d["previous_hash"].text, d["block_hash"].text))
    else None
  }

  /** Exporting a block and reading the record back gives the block. */
  lemma BlockDictRoundTrip(b: Block)
    ensures DictToBlock(BlockToDict(b)) == Some(b)
  {
  }

  /** `to_dicts`: one record per block, in chain order, each of which reads back as
      that block. */
  function ToDicts(chain: seq<Block>): (records: seq<BlockDict>)
    ensures |records| == |chain|
    ensures forall i :: 0 <= i < |chain| ==>
      records[i].Keys == BLOCK_FIELDS && DictToBlock(records[i]) == Some(chain[i])
  {
    if chain == [] then []
    else
      BlockDictRoundTrip(chain[0]);
      [BlockToDict(chain[0])] + ToDicts(chain[1..])
  }

  /** Distinct chains export to distinct record lists. */
  lemma ToDictsInjective(a: seq<Block>, b: seq<Block>)
    requires ToDicts(a) == ToDicts(b)
    ensures a == b
  {
    assert |a| == |b|;
    forall i | 0 <= i < |a|
      ensures a[i] == b[i]
    {
      assert Some(a[i]) == DictToBlock(ToDicts(a)[i]) == Some(b[i]);
    }
  }

}
