# Tauron explainability-to-alert pipeline, modelled in Dafny

Tauron is an early-warning system for dairy herds. A graph model scores each
cow's disease risk, and an explainer gives importance masks over the contact
edges and the node features. This project models the part that turns those
masks into something a farmer reads:

- **Attribution extraction** (`backend/xai_bridge.py`).
  - `extract_top_edge` finds the heaviest contact edge incident on the cow. It reports the edge in cow IDs and falls back to a zero-weight self-loop for an unknown or isolated cow.
  - `extract_top_feature` finds the first most important feature in the fixed ten-name table, with its rounded delta. A malformed mask degrades to the first name.
- **Assembly** (`build_xai_json`). It builds the five-field structured explanation, which has no alert text. `explain_cow` outside mock mode looks the cow up in the inference result ("not found" otherwise), assembles the record and adds the alert. `_not_found_response` is the placeholder answer.
- **Alert generation** (`backend/llm_engine.py`).
  - `_build_user_prompt` and `_fallback_alert` are string templates.
  - `generate_alert` always returns a string: the stripped backend reply, or exactly the fallback on any failure.

Both source files are pure, so the model uses datatypes, functions and lemmas:

- `wrappers.dfy`: `Option` and `Result`.
- `rounding.dfy`: `round(x, 4)` as round-half-even on exact reals.
- `text.dfy`: containment, `replace("_", " ")`, `strip()`, `str(int)` and the `%` formats.
- `schema.dfy`: the edge, the explanation record and the response.
- `llm_engine.dfy` and `xai_bridge.dfy`: the two source files.
- `scenarios.dfy`: the unit tests' concrete cases.

The text backend is a parameter `backend: string -> BackendOutcome`. It is applied to the prompt and returns either `Success(text)` or `Failure(kind)`. The inference result and the explainer output are plain data.

Two promises of the source are narrower in the code than their wording suggests, and the model follows the code:

- The `_fallback_alert` docstring (`backend/llm_engine.py:82`) promises a usable string, and `generate_alert` (`backend/llm_engine.py:97`) promises a string and never raises. On success, though, the code returns the backend's reply stripped of whitespace, which is empty when the reply is blank. `GenerateAlertNonEmpty` states exactly when the alert is non-empty.
- The test `test_to_is_neighbor_not_self` (`backend/tests/test_xai_bridge.py:65`) expects the reported contact to be another cow. The code reports the cow itself when the chosen edge is a self-loop or `cow_ids` repeats an ID. `TopEdgeNeighbourIsOther` states the conditions under which `to` differs from `from`.

## Model

| member | source | states |
|---|---|---|
| `Rounding.RoundHalfEven` | backend/xai_bridge.py:113 | the result is an integer within 1/2 of the input, and an exact half goes to the even neighbour (Python's rounding rule) |
| `Rounding.Round4` | backend/xai_bridge.py:86 | `round(x, 4)` is within 0.00005 of `x` |
| `Rounding.Round4HasFourPlaces` | backend/xai_bridge.py:86 | every rounded value has at most four decimal places |
| `Rounding.Round4FixesFourPlaces` | backend/xai_bridge.py:160 | a value with at most four decimal places is left unchanged by rounding |
| `Rounding.Round4Idempotent` | backend/xai_bridge.py:160 | rounding twice equals rounding once |
| `Rounding.Round4Sign` | backend/xai_bridge.py:113 | rounding keeps 0.0 and never changes the sign |
| `Rounding.Round4Unit` | backend/xai_bridge.py:86 | a weight in [0, 1] stays in [0, 1] after rounding |
| `Text.Humanize` | backend/llm_engine.py:61 | `replace("_", " ")` keeps the length and turns exactly the underscores into spaces |
| `Text.HumanizeRemovesUnderscores` | backend/llm_engine.py:85 | no underscore remains, and humanizing again changes nothing |
| `Text.StripLeft` | backend/llm_engine.py:124 | the result is a suffix of the input, everything dropped is whitespace, and it does not start with whitespace |
| `Text.StripRight` | backend/llm_engine.py:124 | the result is a prefix of the input, everything dropped is whitespace, and it does not end with whitespace |
| `Text.Strip` | backend/llm_engine.py:124 | `strip()` returns a contiguous slice of the input with only whitespace cut off at both ends, and no whitespace at either end |
| `Text.StripIdempotent` | backend/llm_engine.py:124 | stripping a stripped reply changes nothing |
| `Text.StripEmptyIffBlank` | backend/llm_engine.py:124 | the stripped reply is empty exactly when the reply was all whitespace |
| `Text.NatToDecimal` | backend/llm_engine.py:70 | `str(n)` of a natural number is a non-empty run of digits with no leading zero |
| `Text.NatToDecimalValue` | backend/llm_engine.py:70 | reading the digits of `str(n)` back gives `n` |
| `Text.IntToDecimal` | backend/llm_engine.py:88 | `str(n)` is non-empty, made only of digits and '-', with no underscore or space, and starts with '-' exactly for negative numbers |
| `Text.IntToDecimalValue` | backend/llm_engine.py:88 | `str(n)`, sign included, reads back as `n` |
| `Text.IntToDecimalInjective` | backend/llm_engine.py:88 | two different integers never render as the same text |
| `Text.FormatPct` | backend/llm_engine.py:67 | the `{:.0%}` / `{:+.0%}` text ends in '%', starts with '-' exactly for negative values, and starts with '+' for non-negative values in the signed form |
| `LlmEngine.DeltaSegment` | backend/llm_engine.py:67 | the delta segment is the literal "baseline" exactly when the delta is 0.0, and otherwise a signed percentage whose sign matches the delta |
| `LlmEngine.BuildUserPrompt` | backend/llm_engine.py:49-76 | the body is the five-line f-string of `_build_user_prompt`; the contract says it ends with "Generate a one-sentence farmer alert.", and its other contents are in `UserPromptContents` |
| `LlmEngine.UserPromptContents` | backend/llm_engine.py:59-76 | the prompt contains "Cow ID: #cow", the humanized feature with its delta segment, and "#from shared space with #to"; the feature text has no underscore left |
| `LlmEngine.FallbackAlert` | backend/llm_engine.py:79-90 | the body is exactly the f-string of `_fallback_alert`; the contract says it ends with ". Inspect immediately.", and its other contents are in `FallbackContents`, `FallbackNamesTheCow` and `FallbackDependsOnlyOnContact` |
| `LlmEngine.FallbackContents` | backend/llm_engine.py:84-90 | the fallback is non-empty and contains "Check #cow", the humanized feature name and " detected, shared space with #to" |
| `LlmEngine.FallbackOpensWithCow` | backend/llm_engine.py:88 | the fallback opens with "Check #", the cow's ID and a colon |
| `LlmEngine.FallbackNamesTheCow` | backend/llm_engine.py:84-90 | two fallbacks that read the same are about the same cow, so different cows never get the same fallback text |
| `LlmEngine.FallbackDependsOnlyOnContact` | backend/llm_engine.py:84-90 | the fallback depends only on the cow ID, the humanized feature and the edge's `to`; the edge's `from`, its weight, the risk and the delta never change it |
| `LlmEngine.GenerateAlert` | backend/llm_engine.py:93-137 | a total function: any backend failure gives exactly the fallback, and a success gives the reply with surrounding whitespace stripped |
| `LlmEngine.GenerateAlertNonEmpty` | backend/llm_engine.py:122-137 | the alert is non-empty whenever the backend fails or replies with some non-whitespace; on success it has no whitespace at either end |
| `LlmEngine.FailureKindIsInvisible` | backend/llm_engine.py:132-137 | the kind of failure (connect error, timeout, HTTP error, malformed reply, other) never shows in the alert |
| `XaiBridge.IndexOf` | backend/xai_bridge.py:64 | `cow_ids.index(t)` is the first position holding `t` |
| `XaiBridge.FirstArgMax` | backend/xai_bridge.py:109 | `max(range(n), key=...)` gives a maximal position, and every earlier position is strictly smaller |
| `XaiBridge.FirstArgMaxUnique` | backend/xai_bridge.py:109 | only one position is the first maximum |
| `XaiBridge.Incident` | backend/xai_bridge.py:66-71 | the comprehension keeps exactly the zipped edges with the target index at either end, each with its own mask value, in input order |
| `XaiBridge.TopOfIncident` | backend/xai_bridge.py:76 | the first maximal pair of the comprehension is the incident edge that no incident edge outweighs and that every earlier incident edge weighs strictly less than |
| `XaiBridge.IncidentAgainstBest` | backend/xai_bridge.py:76 | every incident edge weighs no more than the first maximal pair, and strictly less when it comes earlier |
| `XaiBridge.TopIncidentUnique` | backend/xai_bridge.py:76 | only one edge fits that description, so the top edge is well defined |
| `XaiBridge.ExtractTopEdge` | backend/xai_bridge.py:42-87 | `from` is always the target. An unknown or isolated target gets the zero-weight self-loop. Otherwise the result is built from the first heaviest incident edge: `to` is the ID at its non-target endpoint and the weight is its mask value rounded. The only requirement is that the non-target ends of the incident edges are node indices (the lookup at line 81). |
| `XaiBridge.TopEdgeNeighbourIsOther` | backend/xai_bridge.py:77-85 | with distinct cow IDs and no self-loop edges, a known cow with a contact gets a `to` different from itself |
| `XaiBridge.TopEdgeWeightRounded` | backend/xai_bridge.py:86 | the reported weight has four decimal places and lies in [0, 1] when the mask does |
| `XaiBridge.ExtractTopFeature` | backend/xai_bridge.py:90-113 | the name is always in the table. An empty or over-long mask gives (first name, 0.0). Otherwise the result is the first most important feature's name, with its rounded delta when a delta list reaches that index and 0.0 when none does. |
| `XaiBridge.TopFeatureDeltaRounded` | backend/xai_bridge.py:111-113 | the reported delta has four decimal places |
| `XaiBridge.BuildXaiJson` | backend/xai_bridge.py:116-164 | the record carries the given cow ID and the rounded risk score, and its edge and feature are the two extractors' results; its edge starts at the cow and its feature is a canonical name |
| `XaiBridge.XaiJsonIsRounded` | backend/xai_bridge.py:158-164 | every number in the record has at most four decimal places |
| `XaiBridge.XaiJsonIgnoresExplainerLabels` | backend/xai_bridge.py:146-156 | the explainer's own `cow_id` and `feature_names` entries do not affect the record |
| `XaiBridge.ExplainCow` | backend/xai_bridge.py:192-204 | fails with "not found" exactly when no cow has the ID. Otherwise the record is assembled from the first matching cow's risk score, with the inference order as `cow_ids`, and the alert is generated from that record. |
| `XaiBridge.ExplainCowAlwaysAnswersKnownCow` | backend/xai_bridge.py:192-204 | a known cow always gets a response about itself; when the backend fails on its prompt, the alert is exactly the fallback naming the cow |
| `XaiBridge.CowIds` | backend/xai_bridge.py:197 | `cow_ids` has one entry per inference cow, in inference order, holding that cow's ID |
| `XaiBridge.NotFoundResponse` | backend/xai_bridge.py:207-216 | the placeholder has risk 0.0, delta 0.0 and the self-loop edge; its feature "unknown" is not a canonical name; its text names the cow |
| `Scenarios.ChainTopEdge` | backend/tests/test_xai_bridge.py:47-72 | in the chain 10-20-30-40, cow 20's top edge is 20 to 30 with weight 0.9 |
| `Scenarios.UnknownCowTopEdge` | backend/tests/test_xai_bridge.py:74-83 | cow 999 gets the self-loop 999 to 999 with weight 0.0 |
| `Scenarios.IsolatedCowTopEdge` | backend/tests/test_xai_bridge.py:85-94 | cow 30, which touches no edge, gets the self-loop with weight 0.0 |
| `Scenarios.MilkDropFeature` | backend/tests/test_xai_bridge.py:118-123 | the mask peaking at index 1 gives "milk_yield_drop" with delta -0.18 |
| `Scenarios.EmptyMaskFeature` | backend/tests/test_xai_bridge.py:130-133 | an empty mask gives "milk_yield" with delta 0.0 |

## Left out

- Risk classification into alert/watch/ok: `backend/graph_utils.py` gives the thresholds only in a docstring and has no code behind them.
- Graph construction, inference and the explainer (`build_graph`, `run_inference`, `get_gnn_explainer_output`): their results are inputs to `ExplainCow`.
- The mock branch of `explain_cow` and the mock tables in `backend/mock_data.py`: demo data, not decision logic. `_not_found_response` is modelled.
- The HTTP layer in `backend/main.py`: routing, CORS, response models and the 404 mapping.
- In `generate_alert`: the HTTP client, `async`/`await`, the 30-second timeout, the request payload (model name, system prompt, temperature, token cap) and logging. The backend's answer to the prompt is an input.
- Floating point: numbers are exact reals. `Round4` and `FormatPct` round half to even on the exact value, but the final conversion back to a binary double is not modelled. NaN is not modelled either. In Python a NaN compares false with everything, so `max` keeps a NaN that comes first and never switches to a later one; that applies to the edge mask (line 76) as much as to the feature mask (line 109).
- Inference records are reduced to their ID and risk score, the only two fields `explain_cow` reads.
- XaiBridge.ExtractTopEdge: requires that, for a known target, the non-target end of every zipped edge touching it is an index in `0 .. len(cow_ids) - 1`. Python reads only the chosen edge's neighbour through `cow_ids[...]` (lines 77-81). It would accept a negative neighbour index, counting from the end of the list, and raise `IndexError` for a neighbour past the end. Neither case is modelled. The explainer supplies node indices of the graph, so neither arises from it.
