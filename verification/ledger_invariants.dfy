/**
 * What holds of every ledger the program can build: the constructor followed
 * by any sequence of `add_incident` calls. Such a ledger satisfies every
 * structural invariant such a ledger has (genesis shape, index equal to position,
 * payload digests, links, block hashes), and in particular passes
 * `verify_chain`, which checks only a part of them.
 */
module LedgerInvariants {

  import opened BlockchainSimulator

  /** One `add_incident` call: the clock reading it takes and the payload it records. */
  datatype Incident = Incident(timestamp: string, payload: Payload)

  /** The full invariant of a ledger built by the program. */
  predicate WellFormed(h: Hashing, chain: seq<Block>) {
    && chain != []
    && IsGenesis(h, chain[0])
    && (forall i :: 0 <= i < |chain| ==> chain[i].index == i)
    && (forall i :: 0 <= i < |chain| ==> chain[i].incidentHash == HashPayload(h, chain[i].payload))
    && (forall i :: 0 <= i < |chain| ==> HashConsistent(h, chain[i]))
    && (forall i :: 1 <= i < |chain| ==> LinkedAt(chain, i))
  }

  /** The full invariant is stronger than what `verify_chain` checks. */
  lemma WellFormedIsValid(h: Hashing, chain: seq<Block>)
    requires WellFormed(h, chain)
    ensures ChainValid(h, chain)
  {
  }

  lemma NewLedgerWellFormed(h: Hashing, timestamp: string)
    ensures WellFormed(h, NewLedger(h, timestamp).chain)
  {
  }

  /** `add_incident` preserves the full invariant. */
  lemma AddIncidentPreservesWellFormed(h: Hashing, l: Ledger, timestamp: string, payload: Payload)
    requires WellFormed(h, l.chain)
    ensures WellFormed(h, AddIncident(h, l, timestamp, payload).ledger.chain)
  {
    var chain' := AddIncident(h, l, timestamp, payload).ledger.chain;
    forall i | 1 <= i < |chain'|
      ensures LinkedAt(chain', i)
    {
      if i < |l.chain| {
        assert LinkedAt(l.chain, i);
      }
    }
  }

  /** The ledger after recording `incidents` in order, one `add_incident` call each. */
  function Replay(h: Hashing, l: Ledger, incidents: seq<Incident>): (r: Ledger)
    requires l.chain != []
    ensures |r.chain| == |l.chain| + |incidents|
    ensures r.chain[..|l.chain|] == l.chain
    ensures forall k :: 0 <= k < |incidents| ==>
      r.chain[|l.chain| + k].timestamp == incidents[k].timestamp
      && r.chain[|l.chain| + k].payload == incidents[k].payload
    decreases |incidents|
  {
    if incidents == [] then l
    else
      var next := AddIncident(h, l, incidents[0].timestamp, incidents[0].payload).ledger;
      var r := Replay(h, next, incidents[1..]);
      assert r.chain[..|l.chain|] == next.chain[..|l.chain|];
      assert forall k :: 1 <= k < |incidents| ==> incidents[k] == incidents[1..][k - 1];
      r
  }

  /** A run of the program: construct the ledger, then record every incident. */
  function Build(h: Hashing, genesisTime: string, incidents: seq<Incident>): Ledger {
    Replay(h, NewLedger(h, genesisTime), incidents)
  }

  lemma {:induction false} ReplayPreservesWellFormed(h: Hashing, l: Ledger, incidents: seq<Incident>)
    requires WellFormed(h, l.chain)
    ensures WellFormed(h, Replay(h, l, incidents).chain)
    decreases |incidents|
  {
    if incidents != [] {
      var next := AddIncident(h, l, incidents[0].timestamp, incidents[0].payload).ledger;
      AddIncidentPreservesWellFormed(h, l, incidents[0].timestamp, incidents[0].payload);
      ReplayPreservesWellFormed(h, next, incidents[1..]);
    }
  }

  /** Every ledger the program builds satisfies the full invariant, so `verify_chain`
      accepts it, whatever the clock readings and payloads were; and block k + 1
      records incident k. */
  lemma BuiltLedgerVerifies(h: Hashing, genesisTime: string, incidents: seq<Incident>)
    ensures WellFormed(h, Build(h, genesisTime, incidents).chain)
    ensures ChainValid(h, Build(h, genesisTime, incidents).chain)
    ensures |Build(h, genesisTime, incidents).chain| == |incidents| + 1
    ensures forall k :: 0 <= k < |incidents| ==>
      Build(h, genesisTime, incidents).chain[k + 1].payload == incidents[k].payload
  {
    NewLedgerWellFormed(h, genesisTime);
    ReplayPreservesWellFormed(h, NewLedger(h, genesisTime), incidents);
    WellFormedIsValid(h, Build(h, genesisTime, incidents).chain);
  }

  /** The same guarantee through the loop that `verify_chain` runs. */
  method VerifyBuiltLedger(h: Hashing, genesisTime: string, incidents: seq<Incident>) returns (ok: bool)
    ensures ok
  {
    BuiltLedgerVerifies(h, genesisTime, incidents);
    ok := VerifyChain(h, Build(h, genesisTime, incidents).chain);
  }

  /** Two incidents recorded on a fresh ledger: a ddos event scored 16 and isolated,
      then one scored 4 and only logged. */
  function TwoIncidentLedger(h: Hashing, t0: string, t1: string, t2: string): Ledger {
    var first: Payload := map[
      "event_type" := JsonString("ddos"), "source" := JsonString("10.0.0.5"),
      "risk_score" := JsonInt(16), "action" := JsonString("isolate_network_segment")];
    var second: Payload := map[
      "event_type" := JsonString("phishing"), "source" := JsonString("10.0.0.9"),
      "risk_score" := JsonInt(4), "action" := JsonString("log_only")];
    var l1 := AddIncident(h, NewLedger(h, t0), t1, first).ledger;
    AddIncident(h, l1, t2, second).ledger
  }

  /** The scenario's ledger has three blocks, numbered and linked in order, and verifies. */
  lemma TwoIncidentScenario(h: Hashing, t0: string, t1: string, t2: string)
    ensures var chain := TwoIncidentLedger(h, t0, t1, t2).chain;
      && |chain| == 3
      && chain[1].index == 1 && chain[2].index == 2
      && chain[1].previousHash == chain[0].blockHash
      && chain[2].previousHash == chain[1].blockHash
      && chain[2].payload["risk_score"] == JsonInt(4)
      && ChainValid(h, chain)
  {
    var l0 := NewLedger(h, t0);
    var chain := TwoIncidentLedger(h, t0, t1, t2).chain;
    NewLedgerWellFormed(h, t0);
    var first := chain[1].payload;
    AddIncidentPreservesWellFormed(h, l0, t1, first);
    AddIncidentPreservesWellFormed(h, Ledger(chain[..2]), t2, chain[2].payload);
    WellFormedIsValid(h, chain);
  }

}
