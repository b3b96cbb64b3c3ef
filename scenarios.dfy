/**
 * The concrete cases of the bridge's unit tests, stated as lemmas about the
 * model: a four-cow chain 10-20-30-40 with both directions of every contact.
 */
module Scenarios {
  import opened Wrappers
  import opened Rounding
  import opened Schema
  import opened XaiBridge

  const ChainEdges: seq<(int, int)> := [(0, 1), (1, 0), (1, 2), (2, 1), (2, 3), (3, 2)]
  const ChainMask: seq<real> := [0.3, 0.3, 0.9, 0.9, 0.5, 0.5]
  const ChainCows: seq<int> := [10, 20, 30, 40]

  /** Cow 20 (node 1): its heaviest contact is 1-2 at 0.9, reported as 20 to 30. */
  lemma ChainTopEdge()
    ensures ExtractTopEdge(ChainEdges, ChainMask, ChainCows, 20) == Edge(20, 30, 0.9)
  {
    var k := IndexOf(ChainCows, 20);
    assert k == 1;
    assert ZipLength(ChainEdges, ChainMask) == 6;
    assert HasIncident(ChainEdges, ChainMask, k) by { assert Touches(ChainEdges[0], k); }
    forall j | 0 <= j < 6 && Touches(ChainEdges[j], 1) ensures ChainMask[j] <= ChainMask[2] {
      assert j <= 3;
    }
    assert IsTopIncident(ChainEdges, ChainMask, 1, 2);
    var r := ExtractTopEdge(ChainEdges, ChainMask, ChainCows, 20);
    var i :| IsTopIncident(ChainEdges, ChainMask, k, i)
             && r == Edge(20, ChainCows[Neighbour(ChainEdges[i], k)], Round4(ChainMask[i]));
    TopIncidentUnique(ChainEdges, ChainMask, k, i, 2);
    assert 0.9 * 10000.0 == 9000.0;
    Round4FixesFourPlaces(0.9);
  }

  /** An unknown cow gets the self-loop sentinel. */
  lemma UnknownCowTopEdge()
    ensures ExtractTopEdge(ChainEdges, ChainMask, ChainCows, 999) == Edge(999, 999, 0.0)
  {
  }

  /** Cow 30 in a graph whose only edge is 0-1 is isolated and gets the sentinel. */
  lemma IsolatedCowTopEdge()
    ensures ExtractTopEdge([(0, 1)], [0.5], [10, 20, 30], 30) == Edge(30, 30, 0.0)
  {
    assert IndexOf([10, 20, 30], 30) == 2;
  }

  /** The largest importance sits at index 1, so the feature is "milk_yield_drop" with delta -0.18. */
  lemma MilkDropFeature()
    ensures ExtractTopFeature([0.1, 0.8, 0.05, 0.0, 0.0, 0.0, 0.0, 0.0, 0.0, 0.0],
                              Some([0.0, -0.18, 0.0, 0.0, 0.0, 0.0, 0.0, 0.0, 0.0, 0.0]))
            == ("milk_yield_drop", -0.18)
  {
    var mask := [0.1, 0.8, 0.05, 0.0, 0.0, 0.0, 0.0, 0.0, 0.0, 0.0];
    var delta := [0.0, -0.18, 0.0, 0.0, 0.0, 0.0, 0.0, 0.0, 0.0, 0.0];
    var r := ExtractTopFeature(mask, Some(delta));
    assert |mask| == |FeatureNames| == 10;
    var k :| IsFirstArgMax(mask, k) && r.0 == FeatureNames[k]
             && r.1 == (if |delta| > k then Round4(delta[k]) else 0.0);
    assert IsFirstArgMax(mask, 1);
    FirstArgMaxUnique(mask, k, 1);
    assert -0.18 * 10000.0 == -1800.0;
    Round4FixesFourPlaces(-0.18);
  }

  /** An empty mask falls back to the first canonical name with delta 0.0. */
  lemma EmptyMaskFeature()
    ensures ExtractTopFeature([], None) == ("milk_yield", 0.0)
  {
  }
}
