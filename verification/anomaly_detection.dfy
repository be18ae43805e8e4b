/**
 * Risk scoring of telemetry events: a severity weight times an event-type
 * weight, both looked up with a default of 1, bucketed into a confidence
 * label and summarised as a "threat DNA" string.
 */
module AnomalyDetection {

  import opened Wrappers
  import opened Decimal
  import opened Sequences
  import opened DataCollector

  const SEVERITY_WEIGHT: map<string, int> := map[
    "low" := 1,
    "medium" := 2,
    "high" := 3,
    "critical" := 4]

  const EVENT_WEIGHT: map<string, int> := map[
    "failed_login" := 1,
    "phishing" := 2,
    "ddos" := 4,
    "data_exfiltration" := 4,
    "malware" := 3,
    "intrusion" := 4,
    "ransomware" := 4,
    "credential_stuffing" := 3,
    "botnet" := 2,
    "firmware_tamper" := 3,
    "sql_injection" := 2,
    "privilege_escalation" := 3,
    "scada_probe" := 4]

  datatype ThreatAssessment = ThreatAssessment(
    event: TelemetryEvent,
    riskScore: int,
    threatDna: string,
    confidence: string)

  /** Every weight in both tables lies between 1 and 4. */
  lemma WeightsInRange(key: string)
    ensures 1 <= Get(SEVERITY_WEIGHT, key, 1) <= 4
    ensures 1 <= Get(EVENT_WEIGHT, key, 1) <= 4
  {
  }

  /** The risk score of an event: its severity weight times its event-type weight. */
  function RiskScore(e: TelemetryEvent): int {
    Get(SEVERITY_WEIGHT, e.severity, 1) * Get(EVENT_WEIGHT, e.eventType, 1)
  }

  /** Every score lies in 1..16, and only products of two weights in 1..4 occur,
      so 5, 7, 10, 11, 13, 14 and 15 are never produced. */
  lemma RiskScoreRange(e: TelemetryEvent)
    ensures 1 <= RiskScore(e) <= 16
    ensures RiskScore(e) in {1, 2, 3, 4, 6, 8, 9, 12, 16}
  {
    WeightsInRange(e.severity);
    WeightsInRange(e.eventType);
  }

  /** The top score 16 is reached exactly by a critical event of one of the five
      weight-4 types. */
  lemma RiskScoreMaximal(e: TelemetryEvent)
    ensures RiskScore(e) == 16 <==>
      e.severity == "critical"
      && e.eventType in {"ddos", "data_exfiltration", "intrusion", "ransomware", "scada_probe"}
  {
    WeightsInRange(e.severity);
    WeightsInRange(e.eventType);
    var sw, ew := Get(SEVERITY_WEIGHT, e.severity, 1), Get(EVENT_WEIGHT, e.eventType, 1);
    if RiskScore(e) == 16 {
      assert sw == 4 && ew == 4;
      assert e.severity in SEVERITY_WEIGHT && SEVERITY_WEIGHT[e.severity] == 4;
      assert e.eventType in EVENT_WEIGHT && EVENT_WEIGHT[e.eventType] == 4;
    }
  }

  /** An event type missing from the table contributes a factor of 1, so the score
      is the severity weight alone; an unknown severity likewise. */
  lemma UnknownKeysWeighOne(e: TelemetryEvent)
    ensures e.eventType !in EVENT_WEIGHT ==> RiskScore(e) == Get(SEVERITY_WEIGHT, e.severity, 1)
    ensures e.severity !in SEVERITY_WEIGHT ==> RiskScore(e) == Get(EVENT_WEIGHT, e.eventType, 1)
  {
  }

  /** The confidence label of a score. */
  function Confidence(score: int): (tier: string)
    ensures tier in {"high", "medium", "low"}
    ensures tier == "high" <==> 12 <= score
    ensures tier == "medium" <==> 6 <= score < 12
    ensures tier == "low" <==> score < 6
  {
    if score >= 12 then "high"
    else if score >= 6 then "medium"
    else "low"
  }

  /** `event_type:source:region:risk_score`. */
  function ThreatDna(e: TelemetryEvent, score: int): string {
    e.eventType + ":" + e.source + ":" + e.region + ":" + IntToDecimal(score)
  }

  /** The DNA is the event type, source and region verbatim, in that order and
      separated by ':', followed by a ':' and a field that reads back as the score. */
  lemma ThreatDnaLayout(e: TelemetryEvent, score: int)
    ensures var dna, a, b, c := ThreatDna(e, score), |e.eventType|, |e.source|, |e.region|;
      && |dna| == a + b + c + |IntToDecimal(score)| + 3
      && dna[..a] == e.eventType
      && dna[a] == ':'
      && dna[a + 1..a + 1 + b] == e.source
      && dna[a + 1 + b] == ':'
      && dna[a + 2 + b..a + 2 + b + c] == e.region
      && dna[a + 2 + b + c] == ':'
      && ParseDecimal(dna[a + 3 + b + c..]) == Some(score)
  {
    JoinLayout(e.eventType, e.source, e.region, IntToDecimal(score), ':');
    IntToDecimalRoundTrip(score);
  }

  /** The text after the last occurrence of `sep`, or all of `s` when `sep` does not occur. */
  function AfterLast(s: string, sep: char): (r: string)
    ensures |r| <= |s| && r == s[|s| - |r|..]
    ensures sep !in r
    ensures |r| < |s| ==> s[|s| - |r| - 1] == sep
  {
    if s == [] then []
    else if s[|s| - 1] == sep then []
    else AfterLast(s[..|s| - 1], sep) + [s[|s| - 1]]
  }

  /** A field that contains no separator is recovered by `AfterLast`. */
  lemma {:induction false} AfterLastOfJoin(prefix: string, sep: char, last: string)
    requires sep !in last
    ensures AfterLast(prefix + [sep] + last, sep) == last
  {
    var s := prefix + [sep] + last;
    if last != [] {
      assert s[..|s| - 1] == prefix + [sep] + last[..|last| - 1];
      assert last[|last| - 1] in last;
      AfterLastOfJoin(prefix, sep, last[..|last| - 1]);
    }
  }

  /** The score as read back from the last ':'-separated field of a DNA string. */
  function ScoreOfDna(dna: string): Option<int> {
    ParseDecimal(AfterLast(dna, ':'))
  }

  /** The score can always be recovered from the DNA, whatever ':' the other
      fields contain, because the rendered number never contains one. */
  lemma ThreatDnaRecoversScore(e: TelemetryEvent, score: int)
    ensures ScoreOfDna(ThreatDna(e, score)) == Some(score)
  {
    var digits := IntToDecimal(score);
    IntToDecimalAvoids(score, ':');
    assert ThreatDna(e, score) == (e.eventType + ":" + e.source + ":" + e.region) + [':'] + digits;
    AfterLastOfJoin(e.eventType + ":" + e.source + ":" + e.region, ':', digits);
    IntToDecimalRoundTrip(score);
  }

  /** `assess_event`: scores the event, labels the score and fingerprints the event. */
  function AssessEvent(e: TelemetryEvent): ThreatAssessment {
    var score := RiskScore(e);
    ThreatAssessment(e, score, ThreatDna(e, score), Confidence(score))
  }

  /** The assessment carries the event unchanged, the product of its two table
      weights as the score (so a score in 1..16), the confidence label of that
      score, and a DNA that fingerprints the event and from which the score can be
      read back. */
  lemma AssessEventSpec(e: TelemetryEvent)
    ensures AssessEvent(e).event == e
    ensures AssessEvent(e).riskScore == RiskScore(e)
    ensures AssessEvent(e).riskScore == Get(SEVERITY_WEIGHT, e.severity, 1) * Get(EVENT_WEIGHT, e.eventType, 1)
    ensures AssessEvent(e).threatDna == ThreatDna(e, AssessEvent(e).riskScore)
    ensures 1 <= AssessEvent(e).riskScore <= 16
    ensures AssessEvent(e).confidence == Confidence(AssessEvent(e).riskScore)
    ensures ScoreOfDna(AssessEvent(e).threatDna) == Some(AssessEvent(e).riskScore)
  {
    RiskScoreRange(e);
    ThreatDnaRecoversScore(e, RiskScore(e));
  }

  /** `assess_events`: one assessment per event, in the same order. */
  function AssessEvents(events: seq<TelemetryEvent>): (assessments: seq<ThreatAssessment>)
    ensures |assessments| == |events|
    ensures forall i :: 0 <= i < |events| ==> assessments[i] == AssessEvent(events[i])
  {
    if events == [] then [] else [AssessEvent(events[0])] + AssessEvents(events[1..])
  }

}
