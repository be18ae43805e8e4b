/**
 * Edge telemetry normalisation: one CSV row, already split into a map from
 * column name to text, becomes one `TelemetryEvent`. Reading the file is not
 * modelled; the rows are the input.
 */
module DataCollector {

  import opened Wrappers
  import opened AsciiText
  import opened Sequences

  datatype TelemetryEvent = TelemetryEvent(
    timestamp: string,
    source: string,
    ipAddress: string,
    eventType: string,
    severity: string,
    description: string,
    region: string)

  /** A row as the CSV reader yields it: column name to cell text. */
  type Row = map<string, string>

  const VALID_SEVERITIES: set<string> := {"low", "medium", "high", "critical"}

  /** The canonical spelling of a severity: trimmed, lower case, one of the valid four,
      with anything else read as "low". */
  function NormalizeSeverity(raw: string): (severity: string)
    ensures severity in VALID_SEVERITIES
    ensures Lower(Strip(raw)) in VALID_SEVERITIES ==> severity == Lower(Strip(raw))
    ensures Lower(Strip(raw)) !in VALID_SEVERITIES ==> severity == "low"
  {
    var s := Lower(Strip(raw));
    if s in VALID_SEVERITIES then s else "low"
  }

  /** The four valid severities are already trimmed and lower case. */
  lemma ValidSeverityIsCanonical(s: string)
    requires s in VALID_SEVERITIES
    ensures IsStripped(s) && HasNoUpper(s)
    ensures Lower(Strip(s)) == s
  {
    StripStripped(s);
    LowerOfLower(s);
  }

  /** Normalising a severity twice is the same as normalising it once. */
  lemma NormalizeSeverityIdempotent(raw: string)
    ensures NormalizeSeverity(NormalizeSeverity(raw)) == NormalizeSeverity(raw)
  {
    ValidSeverityIsCanonical(NormalizeSeverity(raw));
  }

  /** The shape every normalised event has: all fields trimmed, source and event
      type in lower case, a valid severity, and a title-cased region. */
  predicate IsNormalized(e: TelemetryEvent) {
    && IsStripped(e.timestamp)
    && IsStripped(e.source) && HasNoUpper(e.source)
    && IsStripped(e.ipAddress)
    && IsStripped(e.eventType) && HasNoUpper(e.eventType)
    && e.severity in VALID_SEVERITIES
    && IsStripped(e.description)
    && IsStripped(e.region) && Title(e.region) == e.region
  }

  lemma LowerStripIsCanonical(raw: string)
    ensures IsStripped(Lower(Strip(raw))) && HasNoUpper(Lower(Strip(raw)))
  {
    StripSpec(raw);
    LowerSpec(Strip(raw));
    LowerKeepsStripped(Strip(raw));
  }

  lemma TitleStripIsCanonical(raw: string)
    ensures IsStripped(Title(Strip(raw))) && Title(Title(Strip(raw))) == Title(Strip(raw))
  {
    StripSpec(raw);
    TitleKeepsStripped(Strip(raw));
    TitleIdempotent(Strip(raw));
  }

  /** `_normalize_row`: trims every field, lower-cases source and event type,
      title-cases the region, and forces the severity into the valid set. */
  function NormalizeRow(row: Row): TelemetryEvent {
    TelemetryEvent(
      timestamp := Strip(Get(row, "timestamp", "")),
      source := Lower(Strip(Get(row, "source", "unknown"))),
      ipAddress := Strip(Get(row, "ip_address", "0.0.0.0")),
      eventType := Lower(Strip(Get(row, "event_type", "unknown"))),
      severity := NormalizeSeverity(Get(row, "severity", "low")),
      description := Strip(Get(row, "description", "")),
      region := Title(Strip(Get(row, "region", "unknown"))))
  }

  /** Every row, whatever columns it has, normalises to an event in canonical form. */
  lemma NormalizeRowIsNormalized(row: Row)
    ensures IsNormalized(NormalizeRow(row))
  {
    StripSpec(Get(row, "timestamp", ""));
    StripSpec(Get(row, "ip_address", "0.0.0.0"));
    StripSpec(Get(row, "description", ""));
    LowerStripIsCanonical(Get(row, "source", "unknown"));
    LowerStripIsCanonical(Get(row, "event_type", "unknown"));
    TitleStripIsCanonical(Get(row, "region", "unknown"));
  }

  lemma StripOfUnknown()
    ensures Strip("unknown") == "unknown"
  {
    StripStripped("unknown");
  }

  lemma LowerStripOfUnknown()
    ensures Lower(Strip("unknown")) == "unknown"
  {
    StripOfUnknown();
    LowerOfLower("unknown");
  }

  lemma TitleStripOfUnknown()
    ensures Title(Strip("unknown")) == "Unknown"
  {
    StripOfUnknown();
  }

  lemma StripOfAnyAddress()
    ensures Strip("0.0.0.0") == "0.0.0.0"
  {
    StripStripped("0.0.0.0");
  }

  /** Each column present in the row is carried into its field: stripped of
      surrounding whitespace, lower-cased for the source and event type,
      title-cased for the region, and the severity through its own rule. */
  lemma NormalizeRowFields(row: Row)
    ensures "timestamp" in row ==> NormalizeRow(row).timestamp == Strip(row["timestamp"])
    ensures "source" in row ==> NormalizeRow(row).source == Lower(Strip(row["source"]))
    ensures "ip_address" in row ==> NormalizeRow(row).ipAddress == Strip(row["ip_address"])
    ensures "event_type" in row ==> NormalizeRow(row).eventType == Lower(Strip(row["event_type"]))
    ensures "severity" in row ==> NormalizeRow(row).severity == NormalizeSeverity(row["severity"])
    ensures "description" in row ==> NormalizeRow(row).description == Strip(row["description"])
    ensures "region" in row ==> NormalizeRow(row).region == Title(Strip(row["region"]))
  {
  }

  /** Each column missing from the row takes its default: an empty timestamp and
      description, source and event type "unknown", address "0.0.0.0", severity
      "low", and region "Unknown" (the default "unknown" title-cased). */
  lemma MissingColumnsTakeDefaults(row: Row)
    ensures "timestamp" !in row ==> NormalizeRow(row).timestamp == ""
    ensures "source" !in row ==> NormalizeRow(row).source == "unknown"
    ensures "ip_address" !in row ==> NormalizeRow(row).ipAddress == "0.0.0.0"
    ensures "event_type" !in row ==> NormalizeRow(row).eventType == "unknown"
    ensures "severity" !in row ==> NormalizeRow(row).severity == "low"
    ensures "description" !in row ==> NormalizeRow(row).description == ""
    ensures "region" !in row ==> NormalizeRow(row).region == "Unknown"
  {
    LowerStripOfUnknown();
    TitleStripOfUnknown();
    StripOfAnyAddress();
    ValidSeverityIsCanonical("low");
  }

  /** `to_dicts` for one event: the event's fields under their column names. */
  function EventToRow(e: TelemetryEvent): (row: Row)
    ensures row.Keys == {"timestamp", "source", "ip_address", "event_type", "severity", "description", "region"}
  {
    map[
      "timestamp" := e.timestamp,
      "source" := e.source,
      "ip_address" := e.ipAddress,
      "event_type" := e.eventType,
      "severity" := e.severity,
      "description" := e.description,
      "region" := e.region]
  }

  /** Each column of an exported event reads back as the field it came from. */
  lemma EventToRowReadsBack(e: TelemetryEvent)
    ensures Get(EventToRow(e), "timestamp", "") == e.timestamp
    ensures Get(EventToRow(e), "source", "unknown") == e.source
    ensures Get(EventToRow(e), "ip_address", "0.0.0.0") == e.ipAddress
    ensures Get(EventToRow(e), "event_type", "unknown") == e.eventType
    ensures Get(EventToRow(e), "severity", "low") == e.severity
    ensures Get(EventToRow(e), "description", "") == e.description
    ensures Get(EventToRow(e), "region", "unknown") == e.region
  {
  }

  /** Exporting a normalised event and normalising the row again gives the same event. */
  lemma NormalizeExportedEvent(e: TelemetryEvent)
    requires IsNormalized(e)
    ensures NormalizeRow(EventToRow(e)) == e
  {
    EventToRowReadsBack(e);
    var n := NormalizeRow(EventToRow(e));
    StripStripped(e.timestamp);
    assert n.timestamp == e.timestamp;
    StripStripped(e.source);
    LowerOfLower(e.source);
    assert n.source == e.source;
    StripStripped(e.ipAddress);
    assert n.ipAddress == e.ipAddress;
    StripStripped(e.eventType);
    LowerOfLower(e.eventType);
    assert n.eventType == e.eventType;
    ValidSeverityIsCanonical(e.severity);
    assert n.severity == e.severity;
    StripStripped(e.description);
    assert n.description == e.description;
    StripStripped(e.region);
    assert n.region == e.region;
  }

  /** Normalisation is idempotent: a normalised event survives a second pass. */
  lemma NormalizeRowIdempotent(row: Row)
    ensures NormalizeRow(EventToRow(NormalizeRow(row))) == NormalizeRow(row)
  {
    NormalizeRowIsNormalized(row);
    NormalizeExportedEvent(NormalizeRow(row));
  }

  /** The per-row loop of `collect_from_csv`: one event per row, in row order. */
  method CollectFromRows(rows: seq<Row>) returns (events: seq<TelemetryEvent>)
    ensures |events| == |rows|
    ensures forall i :: 0 <= i < |rows| ==> events[i] == NormalizeRow(rows[i])
  {
    events := MapSeq(NormalizeRow, rows);
  }

}
