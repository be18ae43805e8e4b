/**
 * The incident-response policy: a risk score is mapped to one of four
 * containment actions by three thresholds.
 */
module SmartContractLogic {

  import opened DataCollector
  import opened AnomalyDetection

  /** The four actions, from least to most severe. */
  const ACTIONS: seq<string> := [
    "log_only",
    "raise_alert_and_monitor",
    "block_source_and_raise_priority_alert",
    "isolate_network_segment"]

  /** The scores at which the response steps up one level. */
  const THRESHOLDS: seq<int> := [6, 12, 16]

  /** How many thresholds `score` reaches: the independent reading of the policy. */
  function Level(score: int): (n: nat)
    ensures n < |ACTIONS|
  {
    (if score >= THRESHOLDS[0] then 1 else 0)
    + (if score >= THRESHOLDS[1] then 1 else 0)
    + (if score >= THRESHOLDS[2] then 1 else 0)
  }

  /** Position of an action in the escalation order. */
  function Rank(action: string): nat
    requires action in ACTIONS
  {
    if action == ACTIONS[0] then 0
    else if action == ACTIONS[1] then 1
    else if action == ACTIONS[2] then 2
    else 3
  }

  /** `containment_action`: total in the score, always one of the four actions, and
      exactly the action whose position is the number of thresholds reached. */
  function ContainmentAction(assessment: ThreatAssessment): (action: string)
    ensures action in ACTIONS
    ensures action == ACTIONS[Level(assessment.riskScore)]
  {
    if assessment.riskScore >= 16 then "isolate_network_segment"
    else if assessment.riskScore >= 12 then "block_source_and_raise_priority_alert"
    else if assessment.riskScore >= 6 then "raise_alert_and_monitor"
    else "log_only"
  }

  /** The four score bands, each in both directions. */
  lemma ContainmentBands(a: ThreatAssessment)
    ensures ContainmentAction(a) == "isolate_network_segment" <==> a.riskScore >= 16
    ensures ContainmentAction(a) == "block_source_and_raise_priority_alert" <==> 12 <= a.riskScore < 16
    ensures ContainmentAction(a) == "raise_alert_and_monitor" <==> 6 <= a.riskScore < 12
    ensures ContainmentAction(a) == "log_only" <==> a.riskScore < 6
  {
  }

  /** The decision reads nothing of the assessment but its score. */
  lemma ContainmentDependsOnlyOnScore(a: ThreatAssessment, b: ThreatAssessment)
    requires a.riskScore == b.riskScore
    ensures ContainmentAction(a) == ContainmentAction(b)
  {
  }

  /** A higher score never yields a less severe action. */
  lemma ContainmentMonotone(a: ThreatAssessment, b: ThreatAssessment)
    requires a.riskScore <= b.riskScore
    ensures Rank(ContainmentAction(a)) <= Rank(ContainmentAction(b))
  {
  }

  /** For an assessment produced by `assess_event`, the action is "log_only" exactly
      when the confidence is "low", "raise_alert_and_monitor" exactly when it is
      "medium", and one of the two stronger actions exactly when it is "high". */
  lemma ContainmentAgreesWithConfidence(e: TelemetryEvent)
    ensures var a := AssessEvent(e);
      && (ContainmentAction(a) == "log_only" <==> a.confidence == "low")
      && (ContainmentAction(a) == "raise_alert_and_monitor" <==> a.confidence == "medium")
      && (Rank(ContainmentAction(a)) >= 2 <==> a.confidence == "high")
  {
  }

  /** Since scores of 13, 14 and 15 never occur, the priority-alert action is taken
      only at a score of exactly 12. */
  lemma PriorityAlertOnlyAtTwelve(e: TelemetryEvent)
    ensures ContainmentAction(AssessEvent(e)) == "block_source_and_raise_priority_alert"
      <==> AssessEvent(e).riskScore == 12
  {
    RiskScoreRange(e);
  }

}
