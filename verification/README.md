# Incident pipeline core, modelled in Dafny

This project models the sequential, pure core of an incident-response pipeline.

- **Normalisation.** A telemetry row (a map from CSV column to text) becomes a `TelemetryEvent`. Fields are trimmed, source and event type are lower-cased, the region is title-cased, the severity is forced into `{low, medium, high, critical}`, and missing columns take defaults.
- **Scoring.** An event gets a risk score: severity weight times event-type weight, each defaulting to 1. The score gets a confidence label and a "threat DNA" fingerprint.
- **Containment.** A three-threshold policy maps the score to one of four actions.
- **Ledger.** A hash-chained, append-only ledger records incidents. It starts from a genesis block, appends blocks linked to the previous block's hash, verifies the chain, and exports it as records.

Modules follow the source files:

| module | file | source |
|---|---|---|
| `DataCollector` | data_collector.dfy | edge_node/data_collector.py |
| `AnomalyDetection` | anomaly_detection.dfy | edge_node/anomaly_detection.py |
| `SmartContractLogic` | smart_contract_logic.dfy | blockchain_layer/smart_contract_logic.py |
| `BlockchainSimulator` | blockchain_simulator.dfy | blockchain_layer/blockchain_simulator.py |
| `LedgerInvariants` | ledger_invariants.dfy | what every constructed ledger satisfies |
| `TamperEvidence` | tamper_evidence.dfy | what `verify_chain` does and does not detect |
| `LedgerExport` | ledger_export.dfy | `IncidentLedger.to_dicts` |

Four helper modules support them:

- `Wrappers` provides `Option` and `Get`, which is Python's `dict.get` with a default.
- `Decimal` provides Python's `str(int)` and a parser that inverts it.
- `AsciiText` provides `str.strip`, `str.lower` and `str.title` over ASCII.
- `Sequences` provides the append-each-image loop behind the batch operations, and `JoinLayout`, which says where the fields of a text joined with a separator sit. Both the block preimage and the threat DNA are such texts.

`AnomalyDetection.AfterLast` splits the threat DNA on its last ':'. It lives beside `ScoreOfDna`, which reads the score back from the DNA.

SHA-256 and `json.dumps(payload, sort_keys=True)` are the two function-valued fields of a `Hashing` value. Every ledger operation takes that value as a parameter, so each result holds for every choice of the two functions. Payloads are Dafny maps, so insertion order cannot affect the payload digest. Clock readings (`datetime.utcnow().isoformat()`) are passed in as strings. Tamper detection needs SHA-256 to be collision-free. That assumption is written out as `TamperEvidence.Injective` and required only by the lemmas that need it.

The stronger invariant of every ledger the program builds is `LedgerInvariants.WellFormed`. It adds the genesis shape, index equal to position, and payload digests.

One consequence of the weight tables is proved in `RiskScoreRange`: the only possible scores are 1, 2, 3, 4, 6, 8, 9, 12 and 16. So the "block_source_and_raise_priority_alert" band (12 to 15) is reached only at 12 (`PriorityAlertOnlyAtTwelve`).

### What `verify_chain` does not check

`verify_chain` (blockchain_layer/blockchain_simulator.py:52-63) looks only at each later block's predecessor link and recomputed hash; `ChainValid` states exactly that. The following is proved about what it leaves out:

- The payload is never digested again, because `incident_hash` is only compared inside the block hash. Replacing a payload leaves the verdict unchanged (`PayloadTamperUndetected`).
- The index is never compared with the block's position, so the last block can be renumbered and rehashed unnoticed (`RenumberedTailUndetected`).
- Block 0 is never checked except for its stored hash, so it can be replaced by any block carrying that hash (`GenesisContentUnchecked`).
- Tampering with a hashed field (timestamp, `incident_hash` or index) is caught only if the digest has no collisions. That is why `TimestampTamperDetected`, `IncidentHashTamperDetected` and `IndexTamperDetected` require `Injective(h.sha256)`.

### Where each source function lives

| source function | Dafny member | contract stated by |
|---|---|---|
| `IncidentLedger.__init__` | `BlockchainSimulator.NewLedger` | its own ensures; `LedgerInvariants.NewLedgerWellFormed` |
| `_hash_payload` | `BlockchainSimulator.HashPayload` | `TamperEvidence.HashPayloadInjective` |
| `_compute_block_hash` | `BlockchainSimulator.ComputeBlockHash`, `BlockchainSimulator.BlockPreimage` | `BlockchainSimulator.BlockPreimageLayout`, `TamperEvidence.BlockPreimageInjective`, `TamperEvidence.ComputeBlockHashInjective` |
| `_genesis_block` | `BlockchainSimulator.GenesisBlock` | its own ensures |
| `add_incident` | `BlockchainSimulator.AddIncident` | its own ensures; `AddIncidentPreservesValidity`, `LedgerInvariants.AddIncidentPreservesWellFormed` |
| `verify_chain` | `BlockchainSimulator.VerifyChain` (reference: `ChainValid`) | its own ensures; the `TamperEvidence` lemmas |
| `IncidentLedger.to_dicts` | `LedgerExport.ToDicts` | its own ensures; `LedgerExport.ToDictsInjective` |
| `_normalize_row` | `DataCollector.NormalizeRow` | `NormalizeRowIsNormalized`, `NormalizeRowFields`, `MissingColumnsTakeDefaults`, `NormalizeExportedEvent`, `NormalizeRowIdempotent` |
| `collect_from_csv` (per-row loop) | `DataCollector.CollectFromRows` | its own ensures |
| `to_dicts` (events) | `DataCollector.EventToRow` | its own ensures; `EventToRowReadsBack` |
| risk score in `assess_event` | `AnomalyDetection.RiskScore` | `RiskScoreRange`, `RiskScoreMaximal`, `UnknownKeysWeighOne` |
| confidence in `assess_event` | `AnomalyDetection.Confidence` | its own ensures |
| threat DNA in `assess_event` | `AnomalyDetection.ThreatDna` | `ThreatDnaLayout`, `ThreatDnaRecoversScore` |
| `assess_event` | `AnomalyDetection.AssessEvent` | `AssessEventSpec` |
| `assess_events` | `AnomalyDetection.AssessEvents` | its own ensures |
| `containment_action` | `SmartContractLogic.ContainmentAction` | its own ensures; `ContainmentBands` and the other `SmartContractLogic` lemmas |

## Model

| member | source | states |
|---|---|---|
| BlockchainSimulator.GenesisBlock | blockchain_layer/blockchain_simulator.py:35-39 | the genesis block has index 0, payload {genesis: true}, the digest of that payload, predecessor "0", the given timestamp, and a hash equal to the block hash of its own fields |
| BlockchainSimulator.NewLedger | blockchain_layer/blockchain_simulator.py:22-23 | a fresh ledger holds exactly one block, which is a genesis block, and the chain verifies |
| BlockchainSimulator.AddIncident | blockchain_layer/blockchain_simulator.py:41-50 | the new chain is the old chain with the returned block appended, so the length grows by one and no old block changes; the block has index equal to the old length, links to the old tail's hash, carries the given timestamp and payload and the payload digest, and its hash matches its own fields |
| BlockchainSimulator.AppendPreservesValidity | blockchain_layer/blockchain_simulator.py:41-50 | a block that links to the tail and hashes consistently can be appended to a verifying chain, and the chain still verifies |
| BlockchainSimulator.AddIncidentPreservesValidity | blockchain_layer/blockchain_simulator.py:41-50 | appending to any chain that passes verification gives a chain that passes verification |
| BlockchainSimulator.VerifyChain | blockchain_layer/blockchain_simulator.py:52-63 | the early-exit loop returns true exactly when every block from index 1 links to its predecessor's hash and stores its recomputed hash; a genesis-only or empty chain passes |
| LedgerInvariants.WellFormedIsValid | blockchain_layer/blockchain_simulator.py:52-63 | the full ledger invariant (genesis shape, index = position, payload digests, links, hashes) implies what verification checks |
| LedgerInvariants.NewLedgerWellFormed | blockchain_layer/blockchain_simulator.py:22-23 | a fresh ledger satisfies the full invariant |
| LedgerInvariants.AddIncidentPreservesWellFormed | blockchain_layer/blockchain_simulator.py:41-50 | appending preserves the full invariant |
| LedgerInvariants.Replay | blockchain_layer/blockchain_simulator.py:41-50 | recording n incidents in order adds n blocks, keeps the existing blocks as a prefix, and block (old length + k) carries incident k's timestamp and payload |
| LedgerInvariants.ReplayPreservesWellFormed | blockchain_layer/blockchain_simulator.py:41-50 | any sequence of appends preserves the full invariant |
| LedgerInvariants.BuiltLedgerVerifies | blockchain_layer/blockchain_simulator.py:22-63 | construction followed by any sequence of appends, with any timestamps and payloads, yields a well-formed chain of length n + 1 that verifies, with block k + 1 holding payload k |
| LedgerInvariants.VerifyBuiltLedger | blockchain_layer/blockchain_simulator.py:52-63 | running the verification loop on any constructed ledger returns true |
| LedgerInvariants.TwoIncidentScenario | blockchain_layer/blockchain_simulator.py:41-63 | two appends to a fresh ledger give three blocks indexed 1 and 2 after genesis, each linked to its predecessor's hash, and the chain verifies |
| BlockchainSimulator.BlockPreimageLayout | blockchain_layer/blockchain_simulator.py:29-33 | the hashed text is the index, timestamp, payload digest and predecessor hash in that order, separated by three '\|'; the leading field parses back as the index and the other three appear verbatim |
| TamperEvidence.HashPayloadInjective | blockchain_layer/blockchain_simulator.py:25-27 | with a collision-free digest and an injective serialisation, two payloads have the same digest exactly when they are equal |
| TamperEvidence.ComputeBlockHashInjective | blockchain_layer/blockchain_simulator.py:29-33 | with a collision-free digest and no '\|' in timestamps or payload digests, two block hashes are equal exactly when all four hashed fields are equal |
| TamperEvidence.PreimageSeparatesIndex | blockchain_layer/blockchain_simulator.py:32 | two hash preimages that differ only in the index are different texts |
| TamperEvidence.PreimageSeparatesTimestamp | blockchain_layer/blockchain_simulator.py:32 | two hash preimages that differ only in the timestamp are different texts |
| TamperEvidence.PreimageSeparatesIncidentHash | blockchain_layer/blockchain_simulator.py:32 | two hash preimages that differ only in the payload digest are different texts |
| TamperEvidence.BlockPreimageInjective | blockchain_layer/blockchain_simulator.py:32 | if timestamps and digests contain no '\|', the '\|'-joined preimage determines all four hashed fields |
| TamperEvidence.TimestampTamperDetected | blockchain_layer/blockchain_simulator.py:56-62 | with a collision-free digest, changing the timestamp of any block after the first in a valid chain, without rehashing, makes verification fail |
| TamperEvidence.IncidentHashTamperDetected | blockchain_layer/blockchain_simulator.py:56-62 | with a collision-free digest, changing the payload digest of any block after the first in a valid chain, without rehashing, makes verification fail |
| TamperEvidence.IndexTamperDetected | blockchain_layer/blockchain_simulator.py:56-62 | with a collision-free digest, changing the index of any block after the first in a valid chain, without rehashing, makes verification fail |
| TamperEvidence.PreviousHashTamperDetected | blockchain_layer/blockchain_simulator.py:59-60 | changing the predecessor hash of any block after the first in a valid chain makes verification fail, with no assumption on the digest |
| TamperEvidence.BlockHashTamperDetected | blockchain_layer/blockchain_simulator.py:53-62 | in a valid chain of two or more blocks, changing any block's stored hash makes verification fail |
| TamperEvidence.PayloadTamperUndetected | blockchain_layer/blockchain_simulator.py:52-63 | replacing any block's payload never changes the verdict |
| TamperEvidence.GenesisContentUnchecked | blockchain_layer/blockchain_simulator.py:52-63 | block 0 may be replaced by any block with the same hash without changing the verdict |
| TamperEvidence.RenumberedTailUndetected | blockchain_layer/blockchain_simulator.py:52-63 | renumbering the last block of a valid chain and recomputing its hash leaves the chain valid, since indices are never compared with positions |
| TamperEvidence.CorruptionScenarioDetected | blockchain_layer/blockchain_simulator.py:56-62 | in the two-incident scenario, overwriting block 1's payload digest is detected under a collision-free digest |
| LedgerExport.BlockToDict | blockchain_layer/blockchain_simulator.py:66 | a block's record has exactly the six field names of the block |
| LedgerExport.BlockDictRoundTrip | blockchain_layer/blockchain_simulator.py:66 | reading a block's record back yields the block, so every field value survives the export |
| LedgerExport.ToDicts | blockchain_layer/blockchain_simulator.py:65-66 | one record per block, in chain order, each with the six field names and reading back as that block |
| LedgerExport.ToDictsInjective | blockchain_layer/blockchain_simulator.py:65-66 | different chains never export to the same record list |
| Decimal.IntToDecimalRoundTrip | blockchain_layer/blockchain_simulator.py:32 | the decimal rendering of an integer (sign and digits, no leading zero) parses back to the integer, so the rendering is injective |
| AsciiText.StripSpec | edge_node/data_collector.py:31 | strip returns a contiguous slice with no whitespace at either end, and everything removed on either side is whitespace |
| AsciiText.StripIdempotent | edge_node/data_collector.py:31 | stripping twice is stripping once |
| AsciiText.LowerSpec | edge_node/data_collector.py:32 | lower-casing keeps the length, leaves no upper-case letter, turns each capital into its own lower-case letter, changes no other character, and preserves whitespace positions |
| AsciiText.LowerIdempotent | edge_node/data_collector.py:32 | lower-casing twice is lower-casing once |
| AsciiText.TitleSpec | edge_node/data_collector.py:37 | title-casing keeps the length, changes only letter case, keeps cased letters and whitespace where they were, and makes a letter upper case exactly when it is first or follows an uncased character |
| AsciiText.TitleIdempotent | edge_node/data_collector.py:37 | title-casing twice is title-casing once |
| DataCollector.NormalizeSeverity | edge_node/data_collector.py:26-28 | the result is always a valid severity; it is the trimmed, lower-cased input when that is valid, and "low" otherwise |
| DataCollector.ValidSeverityIsCanonical | edge_node/data_collector.py:22 | each valid severity is already trimmed and lower case, so normalising it returns it |
| DataCollector.NormalizeSeverityIdempotent | edge_node/data_collector.py:26-28 | normalising a severity twice gives the same as once |
| DataCollector.NormalizeRowIsNormalized | edge_node/data_collector.py:25-38 | every row, with any columns, normalises to an event with trimmed fields, lower-case source and event type, a valid severity and a title-cased region |
| DataCollector.NormalizeRowFields | edge_node/data_collector.py:26-37 | a column present in the row is stripped into its field; source and event type are also lower-cased, region is title-cased, and severity goes through the severity rule |
| DataCollector.MissingColumnsTakeDefaults | edge_node/data_collector.py:26-37 | a missing column yields timestamp "", source "unknown", ip_address "0.0.0.0", event_type "unknown", severity "low", description "" or region "Unknown" |
| DataCollector.EventToRow | edge_node/data_collector.py:57 | an event's export has exactly the seven field names as columns |
| DataCollector.NormalizeExportedEvent | edge_node/data_collector.py:25-38 | a normalised event, exported as a row and normalised again, comes back unchanged |
| DataCollector.NormalizeRowIdempotent | edge_node/data_collector.py:25-38 | normalising a row, exporting the event and normalising again gives the same event |
| Sequences.MapSeq | edge_node/data_collector.py:47-51 | the loop yields one output per input, in input order, each the image of the input at the same position |
| DataCollector.CollectFromRows | edge_node/data_collector.py:47-51 | exactly one event per row, in row order, each the normalisation of its row |
| AnomalyDetection.WeightsInRange | edge_node/anomaly_detection.py:10-31 | every severity weight and event weight, including the default of 1, lies in 1..4 |
| AnomalyDetection.RiskScoreRange | edge_node/anomaly_detection.py:43-45 | every score lies in 1..16 and belongs to {1, 2, 3, 4, 6, 8, 9, 12, 16} |
| AnomalyDetection.RiskScoreMaximal | edge_node/anomaly_detection.py:10-31 | the top score 16 is reached exactly by a critical event of type ddos, data_exfiltration, intrusion, ransomware or scada_probe |
| AnomalyDetection.UnknownKeysWeighOne | edge_node/anomaly_detection.py:43-44 | an event type missing from the table leaves the severity weight as the score; a missing severity leaves the event weight |
| AnomalyDetection.Confidence | edge_node/anomaly_detection.py:47-52 | "high" iff score >= 12, "medium" iff 6 <= score < 12, "low" iff score < 6 |
| AnomalyDetection.ThreatDnaLayout | edge_node/anomaly_detection.py:54 | the DNA is the event type, source and region verbatim, in that order, each followed by ':', and then a field that parses back as the score |
| AnomalyDetection.ThreatDnaRecoversScore | edge_node/anomaly_detection.py:54 | the score is always the last ':'-separated field of the DNA and parses back, whatever ':' the other fields hold |
| AnomalyDetection.AssessEventSpec | edge_node/anomaly_detection.py:42-61 | the assessment carries the input event unchanged; its score is the severity weight times the event-type weight (1 for an unknown key), so it lies in 1..16; its confidence is the label of that score; its DNA is the fingerprint of the event and that score, and the score reads back from it |
| AnomalyDetection.AssessEvents | edge_node/anomaly_detection.py:64-65 | the result has the same length as the input, and element i is the assessment of event i |
| SmartContractLogic.ContainmentAction | blockchain_layer/smart_contract_logic.py:8-16 | total on every score; always one of the four actions; the chosen action is the one whose position in the escalation order equals the number of thresholds (6, 12, 16) the score reaches |
| SmartContractLogic.ContainmentBands | blockchain_layer/smart_contract_logic.py:10-16 | isolate iff score >= 16, block-and-alert iff 12..15, alert-and-monitor iff 6..11, log_only iff < 6 |
| SmartContractLogic.ContainmentDependsOnlyOnScore | blockchain_layer/smart_contract_logic.py:8-16 | two assessments with equal scores get the same action |
| SmartContractLogic.ContainmentMonotone | blockchain_layer/smart_contract_logic.py:10-16 | a higher score never yields a less severe action |
| SmartContractLogic.ContainmentAgreesWithConfidence | blockchain_layer/smart_contract_logic.py:14-16 | for any assessed event, log_only iff confidence "low", alert-and-monitor iff "medium", and one of the two stronger actions iff "high" |
| SmartContractLogic.PriorityAlertOnlyAtTwelve | blockchain_layer/smart_contract_logic.py:12-13 | for any assessed event, the priority-alert action is chosen exactly when the score is 12 |

## Left out

- SHA-256, `json.dumps(sort_keys=True)` and the UTF-8 encoding before hashing are not implemented. They are the parameters of `Hashing`, and results hold for any choice of them. Collision-freedom is assumed only where stated, as `Injective`.
- `datetime.utcnow().isoformat()` is not modelled. Timestamps are string parameters.
- Payload values are limited to JSON null, booleans, integers and strings. Floats, nested objects and lists are not modelled. Neither is `json.dumps` raising `TypeError` on an unserialisable value, because no modelled value can trigger it.
- The payload dict is stored by reference in the source. The model treats payloads as immutable values, so later changes by the caller are not modelled.
- Blocks and the chain are immutable values in the model. In the source, `Block` is a mutable dataclass (blockchain_layer/blockchain_simulator.py:11-18), `self.chain` is a public list (:23), and `add_incident` returns the appended block object itself (:48-50). So a caller can change a stored block in place. That shared mutation is not modelled. The `TamperEvidence` lemmas describe what `verify_chain` sees after such a change: the chain with one field of one block replaced.
- BlockchainSimulator.AddIncident: requires a non-empty chain. The source indexes `chain[-1]`, which fails on an empty list, and the constructor always supplies the genesis block.
- `collect_from_csv` opening the file, `csv.DictReader`, and the `FileNotFoundError` for a missing path are file I/O. The model takes the rows as a sequence of maps.
- A short CSV line makes `csv.DictReader` fill missing cells with `None`, and `.strip()` on `None` raises `AttributeError`. Rows are modelled as string-to-string maps, so this crash is not modelled.
- `str.strip`, `str.lower` and `str.title` are modelled over ASCII only. Python also strips non-ASCII whitespace and changes the case of non-ASCII letters.
- Key order inside exported dicts is not modelled, because maps are unordered. `to_dicts` in data_collector.py is modelled per event (`EventToRow`).
- The dashboard (SQLite storage, HTTP handler, HTML), the federated-learning averaging, and the threat simulator's floating-point growth factors are not part of this model.
