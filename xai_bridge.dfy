/**
 * The XAI bridge: reduces the explainer's per-edge and per-feature importance
 * masks to one top contact and one top feature, assembles the structured
 * explanation, and runs the non-mock explanation pipeline with the inference
 * result, the explainer output and the text backend given as plain data.
 */
module XaiBridge {
  import opened Wrappers
  import opened Rounding
  import opened Schema
  import Text
  import LlmEngine

  /** The node features in training column order; masks and deltas are aligned to it. */
  const FeatureNames: seq<string> := [
    "milk_yield",
    "milk_yield_drop",
    "vet_event_flag",
    "pen_assignment",
    "feeding_station",
    "rumination_minutes",
    "activity_index",
    "brd_cough_frequency",
    "lameness_score",
    "proximity_to_alert"
  ]

  /** `xs.index(x)`: the position of the first occurrence of `x`. */
  function IndexOf(xs: seq<int>, x: int): (i: nat)
    requires x in xs
    ensures i < |xs| && xs[i] == x
    ensures forall j | 0 <= j < i :: xs[j] != x
  {
    if xs[0] == x then 0 else 1 + IndexOf(xs[1..], x)
  }

  /** `k` is the first position holding the maximum of `s` (what Python's `max` with a key picks). */
  predicate IsFirstArgMax(s: seq<real>, k: int)
  {
    && 0 <= k < |s|
    && (forall j | 0 <= j < |s| :: s[j] <= s[k])
    && (forall j | 0 <= j < k :: s[j] < s[k])
  }

  /** `max(range(len(s)), key=lambda i: s[i])`: scan left to right, replace only on a strictly larger value. */
  function FirstArgMax(s: seq<real>): (k: nat)
    requires |s| > 0
    ensures IsFirstArgMax(s, k)
  {
    if |s| == 1 then 0
    else
      var k := FirstArgMax(s[..|s| - 1]);
      if s[|s| - 1] > s[k] then |s| - 1 else k
  }

  /** The first maximal position is unique. */
  lemma FirstArgMaxUnique(s: seq<real>, i: int, j: int)
    requires IsFirstArgMax(s, i) && IsFirstArgMax(s, j)
    ensures i == j
  {
    assert s[i] == s[j];
  }

  /** The number of pairs `zip(edge_index, edge_mask)` produces. */
  function ZipLength(edgeIndex: seq<(int, int)>, edgeMask: seq<real>): nat
  {
    if |edgeIndex| <= |edgeMask| then |edgeIndex| else |edgeMask|
  }

  /** The edge has node `k` at either end (the contact relation is undirected). */
  predicate Touches(edge: (int, int), k: int)
  {
    edge.0 == k || edge.1 == k
  }

  /** The endpoint of `edge` that is not the target node `k` (`dst` when `src` is `k`). */
  function Neighbour(edge: (int, int), k: int): int
  {
    if edge.0 == k then edge.1 else edge.0
  }

  /** Some zipped edge touches node `k`. */
  predicate HasIncident(edgeIndex: seq<(int, int)>, edgeMask: seq<real>, k: int)
  {
    exists i | 0 <= i < ZipLength(edgeIndex, edgeMask) :: Touches(edgeIndex[i], k)
  }

  /**
   * The one lookup `extract_top_edge` makes through an edge is valid: for a
   * known target, the non-target end of every zipped edge touching it is a
   * node index of `cow_ids`. Edges that do not touch the target are never read
   * as indices.
   */
  predicate NeighboursInRange(edgeIndex: seq<(int, int)>, edgeMask: seq<real>, cowIds: seq<int>, target: int)
  {
    target in cowIds ==>
      forall i | 0 <= i < ZipLength(edgeIndex, edgeMask) && Touches(edgeIndex[i], IndexOf(cowIds, target)) ::
        0 <= Neighbour(edgeIndex[i], IndexOf(cowIds, target)) < |cowIds|
  }

  /**
   * Edge `i` is the one to report for node `k`: it touches `k`, no incident
   * edge outweighs it, and every incident edge before it weighs strictly less.
   */
  predicate IsTopIncident(edgeIndex: seq<(int, int)>, edgeMask: seq<real>, k: int, i: int)
  {
    && 0 <= i < ZipLength(edgeIndex, edgeMask)
    && Touches(edgeIndex[i], k)
    && (forall j | 0 <= j < ZipLength(edgeIndex, edgeMask) && Touches(edgeIndex[j], k) ::
          edgeMask[j] <= edgeMask[i])
    && (forall j | 0 <= j < i && Touches(edgeIndex[j], k) :: edgeMask[j] < edgeMask[i])
  }

  /**
   * The list comprehension of `extract_top_edge`: `(i, mask[i])` for every
   * zipped edge touching node `k`, in input order.
   */
  function Incident(edgeIndex: seq<(int, int)>, edgeMask: seq<real>, k: int): (r: seq<(nat, real)>)
    ensures forall p | 0 <= p < |r| ::
              r[p].0 < ZipLength(edgeIndex, edgeMask) && Touches(edgeIndex[r[p].0], k)
              && r[p].1 == edgeMask[r[p].0]
    ensures forall i | 0 <= i < ZipLength(edgeIndex, edgeMask) && Touches(edgeIndex[i], k) ::
              (i, edgeMask[i]) in r
    ensures forall p, q | 0 <= p < q < |r| :: r[p].0 < r[q].0
    decreases ZipLength(edgeIndex, edgeMask)
  {
    var n := ZipLength(edgeIndex, edgeMask);
    if n == 0 then []
    else
      var front := Incident(edgeIndex[..n - 1], edgeMask[..n - 1], k);
      if Touches(edgeIndex[n - 1], k) then front + [(n - 1, edgeMask[n - 1])] else front
  }

  /** The weights of the incident pairs, in order (the key of the `max`). */
  function Weights(incident: seq<(nat, real)>): (w: seq<real>)
    ensures |w| == |incident|
    ensures forall p | 0 <= p < |w| :: w[p] == incident[p].1
  {
    seq(|incident|, p requires 0 <= p < |incident| => incident[p].1)
  }

  /**
   * `extract_top_edge`: the heaviest edge incident on the target cow, reported
   * in cow IDs from the target to its neighbour, with the weight rounded to
   * four places. An unknown or isolated cow gets the zero-weight self-loop.
   */
  function ExtractTopEdge(edgeIndex: seq<(int, int)>, edgeMask: seq<real>, cowIds: seq<int>, target: int): (r: Edge)
    requires NeighboursInRange(edgeIndex, edgeMask, cowIds, target)
    ensures r.from == target
    ensures target !in cowIds ==> r == NoContact(target)
    ensures target in cowIds && !HasIncident(edgeIndex, edgeMask, IndexOf(cowIds, target)) ==>
              r == NoContact(target)
    ensures target in cowIds && HasIncident(edgeIndex, edgeMask, IndexOf(cowIds, target)) ==>
              exists i | IsTopIncident(edgeIndex, edgeMask, IndexOf(cowIds, target), i) ::
                r == Edge(target, cowIds[Neighbour(edgeIndex[i], IndexOf(cowIds, target))], Round4(edgeMask[i]))
  {
    if target !in cowIds then NoContact(target)
    else
      var k := IndexOf(cowIds, target);
      var incident := Incident(edgeIndex, edgeMask, k);
      if |incident| == 0 then NoContact(target)
      else
        var best := FirstArgMax(Weights(incident));
        var i := incident[best].0;
        TopOfIncident(edgeIndex, edgeMask, k, incident, best);
        Edge(target, cowIds[Neighbour(edgeIndex[i], k)], Round4(incident[best].1))
  }

  /** The first maximal pair of the comprehension is the edge `IsTopIncident` describes. */
  lemma TopOfIncident(edgeIndex: seq<(int, int)>, edgeMask: seq<real>, k: int, incident: seq<(nat, real)>, best: nat)
    requires incident == Incident(edgeIndex, edgeMask, k)
    requires |incident| > 0 && IsFirstArgMax(Weights(incident), best)
    ensures IsTopIncident(edgeIndex, edgeMask, k, incident[best].0)
  {
    forall j | 0 <= j < ZipLength(edgeIndex, edgeMask) && Touches(edgeIndex[j], k)
      ensures edgeMask[j] <= edgeMask[incident[best].0]
      ensures j < incident[best].0 ==> edgeMask[j] < edgeMask[incident[best].0]
    {
      IncidentAgainstBest(edgeIndex, edgeMask, k, incident, best, j);
    }
  }

  /** One incident edge compared with the first maximal pair of the comprehension. */
  lemma IncidentAgainstBest(edgeIndex: seq<(int, int)>, edgeMask: seq<real>, k: int,
                            incident: seq<(nat, real)>, best: nat, j: nat)
    requires incident == Incident(edgeIndex, edgeMask, k)
    requires |incident| > 0 && IsFirstArgMax(Weights(incident), best)
    requires j < ZipLength(edgeIndex, edgeMask) && Touches(edgeIndex[j], k)
    ensures edgeMask[j] <= edgeMask[incident[best].0]
    ensures j < incident[best].0 ==> edgeMask[j] < edgeMask[incident[best].0]
  {
    var w := Weights(incident);
    assert (j, edgeMask[j]) in incident;
    var p :| 0 <= p < |incident| && incident[p] == (j, edgeMask[j]);
    assert w[p] <= w[best];
    assert j < incident[best].0 ==> p < best;
  }

  /** At most one edge fits `IsTopIncident`, so the top edge is well defined. */
  lemma TopIncidentUnique(edgeIndex: seq<(int, int)>, edgeMask: seq<real>, k: int, i: int, j: int)
    requires IsTopIncident(edgeIndex, edgeMask, k, i) && IsTopIncident(edgeIndex, edgeMask, k, j)
    ensures i == j
  {
  }

  /**
   * An edge chosen for a known cow whose IDs are distinct and whose incident
   * edges are not self-loops reports a neighbour other than the cow itself.
   */
  lemma TopEdgeNeighbourIsOther(edgeIndex: seq<(int, int)>, edgeMask: seq<real>, cowIds: seq<int>, target: int)
    requires NeighboursInRange(edgeIndex, edgeMask, cowIds, target)
    requires forall a, b | 0 <= a < b < |cowIds| :: cowIds[a] != cowIds[b]
    requires forall i | 0 <= i < ZipLength(edgeIndex, edgeMask) :: edgeIndex[i].0 != edgeIndex[i].1
    requires target in cowIds && HasIncident(edgeIndex, edgeMask, IndexOf(cowIds, target))
    ensures ExtractTopEdge(edgeIndex, edgeMask, cowIds, target).to != target
  {
    var k := IndexOf(cowIds, target);
    var r := ExtractTopEdge(edgeIndex, edgeMask, cowIds, target);
    var i :| IsTopIncident(edgeIndex, edgeMask, k, i)
             && r == Edge(target, cowIds[Neighbour(edgeIndex[i], k)], Round4(edgeMask[i]));
    var m := Neighbour(edgeIndex[i], k);
    assert m != k;
    assert cowIds[m] != cowIds[k] by {
      if m < k { assert cowIds[m] != cowIds[k]; } else { assert cowIds[k] != cowIds[m]; }
    }
  }

  /**
   * The reported weight has at most four decimal places, and stays in [0, 1]
   * when the mask values are importances in [0, 1].
   */
  lemma TopEdgeWeightRounded(edgeIndex: seq<(int, int)>, edgeMask: seq<real>, cowIds: seq<int>, target: int)
    requires NeighboursInRange(edgeIndex, edgeMask, cowIds, target)
    ensures FourPlaces(ExtractTopEdge(edgeIndex, edgeMask, cowIds, target).weight)
    ensures (forall i | 0 <= i < |edgeMask| :: 0.0 <= edgeMask[i] <= 1.0) ==>
              0.0 <= ExtractTopEdge(edgeIndex, edgeMask, cowIds, target).weight <= 1.0
  {
    var r := ExtractTopEdge(edgeIndex, edgeMask, cowIds, target);
    if target in cowIds && HasIncident(edgeIndex, edgeMask, IndexOf(cowIds, target)) {
      var k := IndexOf(cowIds, target);
      var i :| IsTopIncident(edgeIndex, edgeMask, k, i)
               && r == Edge(target, cowIds[Neighbour(edgeIndex[i], k)], Round4(edgeMask[i]));
      Round4HasFourPlaces(edgeMask[i]);
      if forall j | 0 <= j < |edgeMask| :: 0.0 <= edgeMask[j] <= 1.0 {
        Round4Unit(edgeMask[i]);
      }
    } else {
      assert r.weight == 0.0;
      assert 0.0 * 10000.0 == 0.0;
    }
  }

  /**
   * `extract_top_feature`: the name of the first most important feature and
   * its delta rounded to four places (0.0 when no delta list reaches it). An
   * empty mask, or one longer than the name table, yields the first name and 0.0.
   */
  function ExtractTopFeature(featureMask: seq<real>, featureDelta: Option<seq<real>>): (r: (string, real))
    ensures r.0 in FeatureNames
    ensures |featureMask| == 0 || |featureMask| > |FeatureNames| ==> r == (FeatureNames[0], 0.0)
    ensures 0 < |featureMask| <= |FeatureNames| ==>
              exists k | IsFirstArgMax(featureMask, k) ::
                && r.0 == FeatureNames[k]
                && r.1 == (if featureDelta.Some? && |featureDelta.value| > k
                           then Round4(featureDelta.value[k]) else 0.0)
  {
    if |featureMask| == 0 || |featureMask| > |FeatureNames| then (FeatureNames[0], 0.0)
    else
      var k := FirstArgMax(featureMask);
      var delta := if featureDelta.Some? && |featureDelta.value| > k then featureDelta.value[k] else 0.0;
      (FeatureNames[k], Round4(delta))
  }

  /** The reported delta has at most four decimal places. */
  lemma TopFeatureDeltaRounded(featureMask: seq<real>, featureDelta: Option<seq<real>>)
    ensures FourPlaces(ExtractTopFeature(featureMask, featureDelta).1)
  {
    var r := ExtractTopFeature(featureMask, featureDelta);
    if 0 < |featureMask| <= |FeatureNames| {
      var k := FirstArgMax(featureMask);
      var delta := if featureDelta.Some? && |featureDelta.value| > k then featureDelta.value[k] else 0.0;
      Round4HasFourPlaces(delta);
    } else {
      assert 0.0 * 10000.0 == 0.0;
    }
  }

  /** What the explainer hands over for one cow (`get_gnn_explainer_output`'s dict). */
  datatype ExplainerOutput = ExplainerOutput(
    cowId: int,
    edgeMask: seq<real>,
    edgeIndex: seq<(int, int)>,
    featureMask: seq<real>,
    featureNames: seq<string>,
    featureDelta: Option<seq<real>>)

  /**
   * `build_xai_json`: the structured explanation for `cowId`. Its risk score is
   * rounded, its edge and feature are the two extractors' results on the
   * explainer output, its edge starts at the cow and its feature is a canonical name.
   */
  function BuildXaiJson(cowId: int, riskScore: real, output: ExplainerOutput, cowIds: seq<int>): (r: XaiRecord)
    requires NeighboursInRange(output.edgeIndex, output.edgeMask, cowIds, cowId)
    ensures r.cowId == cowId && r.riskScore == Round4(riskScore)
    ensures r.topEdge == ExtractTopEdge(output.edgeIndex, output.edgeMask, cowIds, cowId)
    ensures (r.topFeature, r.featureDelta) == ExtractTopFeature(output.featureMask, output.featureDelta)
    ensures r.topEdge.from == cowId && r.topFeature in FeatureNames
  {
    var topEdge := ExtractTopEdge(output.edgeIndex, output.edgeMask, cowIds, cowId);
    var (topFeature, featureDelta) := ExtractTopFeature(output.featureMask, output.featureDelta);
    XaiRecord(cowId, Round4(riskScore), topEdge, topFeature, featureDelta)
  }

  /** Every number in the structured explanation has at most four decimal places. */
  lemma XaiJsonIsRounded(cowId: int, riskScore: real, output: ExplainerOutput, cowIds: seq<int>)
    requires NeighboursInRange(output.edgeIndex, output.edgeMask, cowIds, cowId)
    ensures FourPlaces(BuildXaiJson(cowId, riskScore, output, cowIds).riskScore)
    ensures FourPlaces(BuildXaiJson(cowId, riskScore, output, cowIds).topEdge.weight)
    ensures FourPlaces(BuildXaiJson(cowId, riskScore, output, cowIds).featureDelta)
  {
    Round4HasFourPlaces(riskScore);
    TopEdgeWeightRounded(output.edgeIndex, output.edgeMask, cowIds, cowId);
    TopFeatureDeltaRounded(output.featureMask, output.featureDelta);
  }

  /**
   * The explainer's own `cow_id` and `feature_names` entries play no part: the
   * argument `cowId` and the fixed name table are used instead.
   */
  lemma XaiJsonIgnoresExplainerLabels(cowId: int, riskScore: real, a: ExplainerOutput, b: ExplainerOutput, cowIds: seq<int>)
    requires a.edgeIndex == b.edgeIndex && a.edgeMask == b.edgeMask
    requires a.featureMask == b.featureMask && a.featureDelta == b.featureDelta
    requires NeighboursInRange(a.edgeIndex, a.edgeMask, cowIds, cowId)
    ensures BuildXaiJson(cowId, riskScore, a, cowIds) == BuildXaiJson(cowId, riskScore, b, cowIds)
  {
  }

  /** Why an explanation request is refused: the cow is not in the inference result. */
  datatype ExplainError = CowNotFound(cowId: int)

  /** One cow of the inference result, as far as the pipeline reads it. */
  datatype CowRisk = CowRisk(id: int, riskScore: real)

  /** `[c["id"] for c in cows]`: node index to cow ID, in inference order. */
  function CowIds(cows: seq<CowRisk>): (ids: seq<int>)
    ensures |ids| == |cows|
    ensures forall i | 0 <= i < |cows| :: ids[i] == cows[i].id
  {
    seq(|cows|, i requires 0 <= i < |cows| => cows[i].id)
  }

  /**
   * `explain_cow` outside mock mode: a cow missing from the inference result is
   * a reportable failure; otherwise the first matching cow's risk score is
   * assembled with the explainer output into the structured explanation, and
   * the generated alert is added as the one extra field.
   */
  function ExplainCow(cowId: int, cows: seq<CowRisk>, output: ExplainerOutput,
                      backend: string -> LlmEngine.BackendOutcome): (r: Result<ExplainResponse, ExplainError>)
    requires NeighboursInRange(output.edgeIndex, output.edgeMask, CowIds(cows), cowId)
    ensures r.Err? <==> forall c | c in cows :: c.id != cowId
    ensures r.Err? ==> r.error == CowNotFound(cowId)
    ensures r.Ok? ==>
              exists m | 0 <= m < |cows| && cows[m].id == cowId && (forall j | 0 <= j < m :: cows[j].id != cowId) ::
                && r.value.record == BuildXaiJson(cowId, cows[m].riskScore, output, CowIds(cows))
                && r.value.alertText == LlmEngine.GenerateAlert(r.value.record, backend)
  {
    var cowIds := CowIds(cows);
    if cowId !in cowIds then Err(CowNotFound(cowId))
    else
      var m := IndexOf(cowIds, cowId);
      var record := BuildXaiJson(cowId, cows[m].riskScore, output, cowIds);
      Ok(ExplainResponse(record, LlmEngine.GenerateAlert(record, backend)))
  }

  /**
   * A cow present in the inference result always gets a full response for
   * itself: the record is about that cow, and when the backend fails on its
   * prompt the alert is exactly the fallback sentence naming the cow.
   */
  lemma ExplainCowAlwaysAnswersKnownCow(cowId: int, cows: seq<CowRisk>, output: ExplainerOutput,
                                        backend: string -> LlmEngine.BackendOutcome)
    requires cowId in CowIds(cows) && NeighboursInRange(output.edgeIndex, output.edgeMask, CowIds(cows), cowId)
    ensures ExplainCow(cowId, cows, output, backend).Ok?
    ensures ExplainCow(cowId, cows, output, backend).value.record.cowId == cowId
    ensures ExplainCow(cowId, cows, output, backend).value.record.topEdge.from == cowId
    ensures backend(LlmEngine.BuildUserPrompt(ExplainCow(cowId, cows, output, backend).value.record)).Failure? ==>
              && ExplainCow(cowId, cows, output, backend).value.alertText
                 == LlmEngine.FallbackAlert(ExplainCow(cowId, cows, output, backend).value.record)
              && Text.IsInfix("Check #" + Text.IntToDecimal(cowId), ExplainCow(cowId, cows, output, backend).value.alertText)
  {
    var r := ExplainCow(cowId, cows, output, backend);
    var i := IndexOf(CowIds(cows), cowId);
    assert cows[i].id == cowId;
    assert r.Ok?;
    LlmEngine.FallbackContents(r.value.record);
  }

  /** `_not_found_response`: the placeholder answer for a cow with no data. */
  function NotFoundResponse(cowId: int): (r: ExplainResponse)
    ensures r.record.cowId == cowId && r.record.riskScore == 0.0 && r.record.featureDelta == 0.0
    ensures r.record.topEdge == NoContact(cowId)
    ensures r.record.topFeature !in FeatureNames
    ensures Text.IsInfix("#" + Text.IntToDecimal(cowId), r.alertText)
  {
    var text := "No data available for cow " + ("#" + Text.IntToDecimal(cowId)) + ".";
    Text.InfixOfSelf("#" + Text.IntToDecimal(cowId));
    Text.InfixOfAppend("#" + Text.IntToDecimal(cowId), "#" + Text.IntToDecimal(cowId), "No data available for cow ");
    Text.InfixOfAppend("#" + Text.IntToDecimal(cowId), "No data available for cow " + ("#" + Text.IntToDecimal(cowId)), ".");
    ExplainResponse(XaiRecord(cowId, 0.0, NoContact(cowId), "unknown", 0.0), text)
  }
}
