/**
 * The records that flow from the explainer to the alert: the reduced contact
 * edge, the structured explanation (no alert text) and the final response
 * (the explanation plus exactly one alert sentence).
 */
module Schema {

  /** `{"from": cow_id, "to": neighbour_cow_id, "weight": w}`, in cow IDs, not node indices. */
  datatype Edge = Edge(from: int, to: int, weight: real)

  /** The self-loop of weight 0.0 that marks "no informative contact" for `cowId`. */
  function NoContact(cowId: int): Edge
  {
    Edge(cowId, cowId, 0.0)
  }

  /**
   * The structured explanation: exactly the keys `cow_id`, `risk_score`,
   * `top_edge`, `top_feature` and `feature_delta`. It has no field for alert text.
   */
  datatype XaiRecord = XaiRecord(
    cowId: int,
    riskScore: real,
    topEdge: Edge,
    topFeature: string,
    featureDelta: real)

  /** The `/explain/{cow_id}` response: the explanation's fields plus `alert_text`. */
  datatype ExplainResponse = ExplainResponse(record: XaiRecord, alertText: string)
}
