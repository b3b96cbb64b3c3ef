/**
 * The alert generator: the user prompt sent to the text-generation backend,
 * the deterministic template used when the backend fails, and the total
 * `generate_alert` that always yields one or the other.
 */
module LlmEngine {
  import opened Schema
  import opened Text

  /** Why a backend call did not produce text; only ever logged, never surfaced. */
  datatype FailureKind =
    | ConnectError                 // the daemon is not reachable
    | Timeout                      // the bounded wait ran out
    | HttpStatusError(status: int) // `raise_for_status` rejected the reply
    | MalformedResponse            // the body is not JSON or has no "response" text
    | Unexpected                   // any other exception

  /** What one call to the backend with a prompt comes back with. */
  datatype BackendOutcome = Success(responseText: string) | Failure(kind: FailureKind)

  const PromptClosing: string := "Generate a one-sentence farmer alert."
  const FallbackClosing: string := ". Inspect immediately."

  /** The "change from baseline" segment of the prompt: a signed percentage, or "baseline" for no change. */
  function DeltaSegment(delta: real): (r: string)
    ensures |r| > 0
    ensures r == "baseline" <==> delta == 0.0
    ensures delta > 0.0 ==> r[0] == '+'
    ensures delta < 0.0 ==> r[0] == '-'
  {
    if delta != 0.0 then FormatPct(delta, true) else "baseline"
  }

  /** `_build_user_prompt`: five lines describing the explanation to the backend. */
  function BuildUserPrompt(x: XaiRecord): (r: string)
    ensures |r| >= |PromptClosing| && r[|r| - |PromptClosing|..] == PromptClosing
  {
    SuffixOfAppend(PromptHead(x) + ContactLine(x), PromptClosing);
    PromptHead(x) + ContactLine(x) + PromptClosing
  }

  /** The cow, risk and risk-factor lines of the prompt. */
  function PromptHead(x: XaiRecord): string
  {
    "Cow ID: #" + IntToDecimal(x.cowId) + "\n"
    + "Risk score: " + FormatPct(x.riskScore, false) + "\n"
    + "Top risk factor: " + FactorClause(x) + "\n"
  }

  /** The humanized feature name and its change from baseline. */
  function FactorClause(x: XaiRecord): string
  {
    Humanize(x.topFeature) + " (change from baseline: " + DeltaSegment(x.featureDelta) + ")"
  }

  /** The contact line: both ends of the top edge and its strength. */
  function ContactLine(x: XaiRecord): string
  {
    "Highest-risk contact: " + ContactPair(x)
    + " (connection strength: " + FormatPct(x.topEdge.weight, false) + ")\n"
  }

  /** `#from shared space with #to` for the top edge. */
  function ContactPair(x: XaiRecord): string
  {
    "#" + IntToDecimal(x.topEdge.from) + " shared space with #" + IntToDecimal(x.topEdge.to)
  }

  /**
   * The prompt names the cow, carries the humanized feature with its delta
   * segment, references both ends of the top edge, and ends with the request
   * for one sentence.
   */
  lemma UserPromptContents(x: XaiRecord)
    ensures IsInfix("Cow ID: #" + IntToDecimal(x.cowId), BuildUserPrompt(x))
    ensures IsInfix(Humanize(x.topFeature) + " (change from baseline: " + DeltaSegment(x.featureDelta) + ")",
                    BuildUserPrompt(x))
    ensures IsInfix("#" + IntToDecimal(x.topEdge.from) + " shared space with #" + IntToDecimal(x.topEdge.to),
                    BuildUserPrompt(x))
    ensures '_' !in Humanize(x.topFeature)
  {
    var cow := "Cow ID: #" + IntToDecimal(x.cowId);
    var risk := FormatPct(x.riskScore, false);
    var a1 := cow + "\n";
    var a2 := a1 + "Risk score: ";
    var a3 := a2 + risk;
    var a4 := a3 + "\n";
    var a5 := a4 + "Top risk factor: ";
    var a6 := a5 + FactorClause(x);
    assert PromptHead(x) == a6 + "\n";
    InfixOfSelf(cow);
    InfixOfAppend(cow, cow, "\n");
    InfixOfAppend(cow, a1, "Risk score: ");
    InfixOfAppend(cow, a2, risk);
    InfixOfAppend(cow, a3, "\n");
    InfixOfAppend(cow, a4, "Top risk factor: ");
    InfixOfAppend(cow, a5, FactorClause(x));
    InfixOfAppend(cow, a6, "\n");
    InfixOfAppend(cow, PromptHead(x), ContactLine(x));
    InfixOfAppend(cow, PromptHead(x) + ContactLine(x), PromptClosing);

    InfixOfSelf(FactorClause(x));
    InfixOfAppend(FactorClause(x), FactorClause(x), a5);
    InfixOfAppend(FactorClause(x), a6, "\n");
    InfixOfAppend(FactorClause(x), PromptHead(x), ContactLine(x));
    InfixOfAppend(FactorClause(x), PromptHead(x) + ContactLine(x), PromptClosing);

    var c1 := "Highest-risk contact: " + ContactPair(x);
    var c2 := c1 + " (connection strength: ";
    var c3 := c2 + FormatPct(x.topEdge.weight, false);
    var c4 := c3 + ")\n";
    assert ContactLine(x) == c4;
    InfixOfSelf(ContactPair(x));
    InfixOfAppend(ContactPair(x), ContactPair(x), "Highest-risk contact: ");
    InfixOfAppend(ContactPair(x), c1, " (connection strength: ");
    InfixOfAppend(ContactPair(x), c2, FormatPct(x.topEdge.weight, false));
    InfixOfAppend(ContactPair(x), c3, ")\n");
    InfixOfAppend(ContactPair(x), ContactLine(x), PromptHead(x));
    InfixOfAppend(ContactPair(x), PromptHead(x) + ContactLine(x), PromptClosing);

    HumanizeRemovesUnderscores(x.topFeature);
  }

  /** `_fallback_alert`: the network-free template sentence. */
  function FallbackAlert(x: XaiRecord): (r: string)
    ensures |r| >= |FallbackClosing| && r[|r| - |FallbackClosing|..] == FallbackClosing
  {
    SuffixOfAppend("Check #" + IntToDecimal(x.cowId) + ": " + Humanize(x.topFeature)
                   + " detected, shared space with #" + IntToDecimal(x.topEdge.to), FallbackClosing);
    "Check #" + IntToDecimal(x.cowId) + ": " + Humanize(x.topFeature)
    + " detected, shared space with #" + IntToDecimal(x.topEdge.to) + FallbackClosing
  }

  /**
   * The fallback is non-empty, starts with the cow ID, carries the humanized
   * feature name, names the edge's `to` end as the contact and ends with the
   * inspection directive.
   */
  lemma FallbackContents(x: XaiRecord)
    ensures |FallbackAlert(x)| > 0
    ensures IsInfix("Check #" + IntToDecimal(x.cowId), FallbackAlert(x))
    ensures IsInfix(Humanize(x.topFeature), FallbackAlert(x))
    ensures IsInfix(" detected, shared space with #" + IntToDecimal(x.topEdge.to), FallbackAlert(x))
  {
    var cow := "Check #" + IntToDecimal(x.cowId);
    var feature := Humanize(x.topFeature);
    var contact := " detected, shared space with #";
    var to := IntToDecimal(x.topEdge.to);
    var a1 := cow + ": ";
    var a2 := a1 + feature;
    var a3 := a2 + contact;
    var a4 := a3 + to;
    assert FallbackAlert(x) == a4 + FallbackClosing;

    InfixOfSelf(cow);
    InfixOfAppend(cow, cow, ": ");
    InfixOfAppend(cow, a1, feature);
    InfixOfAppend(cow, a2, contact);
    InfixOfAppend(cow, a3, to);
    InfixOfAppend(cow, a4, FallbackClosing);

    InfixOfSelf(feature);
    InfixOfAppend(feature, feature, a1);
    InfixOfAppend(feature, a2, contact);
    InfixOfAppend(feature, a3, to);
    InfixOfAppend(feature, a4, FallbackClosing);

    InfixOfTail(a2, contact, to);
    InfixOfAppend(contact + to, a4, FallbackClosing);
  }

  /** The fallback opens with "Check #", the cow's ID and a colon. */
  lemma FallbackOpensWithCow(x: XaiRecord)
    ensures |FallbackAlert(x)| > 7 + |IntToDecimal(x.cowId)|
    ensures FallbackAlert(x)[7..7 + |IntToDecimal(x.cowId)|] == IntToDecimal(x.cowId)
    ensures FallbackAlert(x)[7 + |IntToDecimal(x.cowId)|] == ':'
  {
    var d := IntToDecimal(x.cowId);
    var a1 := "Check #" + d + ": ";
    var a2 := a1 + Humanize(x.topFeature);
    var a3 := a2 + " detected, shared space with #";
    var a4 := a3 + IntToDecimal(x.topEdge.to);
    assert FallbackAlert(x) == a4 + FallbackClosing;
    PrefixOfAppend(a1, a1, Humanize(x.topFeature));
    PrefixOfAppend(a1, a2, " detected, shared space with #");
    PrefixOfAppend(a1, a3, IntToDecimal(x.topEdge.to));
    PrefixOfAppend(a1, a4, FallbackClosing);
    assert a1[7..7 + |d|] == d;
  }

  /** Two fallback sentences that read the same are about the same cow. */
  lemma FallbackNamesTheCow(x: XaiRecord, y: XaiRecord)
    requires FallbackAlert(x) == FallbackAlert(y)
    ensures x.cowId == y.cowId
  {
    var s := FallbackAlert(x);
    var dx, dy := IntToDecimal(x.cowId), IntToDecimal(y.cowId);
    FallbackOpensWithCow(x);
    FallbackOpensWithCow(y);
    assert dx == s[7..7 + |dx|] == dy;
    IntToDecimalInjective(x.cowId, y.cowId);
  }

  /**
   * The fallback reads only the cow ID, the humanized feature and the edge's
   * `to` end: the risk score, the delta, the edge's `from` end and its weight
   * never change it.
   */
  lemma FallbackDependsOnlyOnContact(x: XaiRecord, y: XaiRecord)
    requires x.cowId == y.cowId && Humanize(x.topFeature) == Humanize(y.topFeature)
    requires x.topEdge.to == y.topEdge.to
    ensures FallbackAlert(x) == FallbackAlert(y)
  {
  }

  /**
   * `generate_alert`: the prompt goes to the backend; a successful reply is
   * returned with surrounding whitespace stripped, and every failure, whatever
   * its kind, yields exactly the fallback. It has no precondition and no error
   * result: it never raises.
   */
  function GenerateAlert(x: XaiRecord, backend: string -> BackendOutcome): (r: string)
    ensures backend(BuildUserPrompt(x)).Failure? ==> r == FallbackAlert(x)
    ensures backend(BuildUserPrompt(x)).Success? ==> r == Strip(backend(BuildUserPrompt(x)).responseText)
  {
    match backend(BuildUserPrompt(x))
    case Success(text) => Strip(text)
    case Failure(_) => FallbackAlert(x)
  }

  /**
   * The alert is a non-empty sentence whenever the backend fails, or answers
   * with anything but whitespace; on success it has no whitespace at either end.
   */
  lemma GenerateAlertNonEmpty(x: XaiRecord, backend: string -> BackendOutcome)
    requires backend(BuildUserPrompt(x)).Success? ==>
               exists k | 0 <= k < |backend(BuildUserPrompt(x)).responseText| ::
                 !IsSpace(backend(BuildUserPrompt(x)).responseText[k])
    ensures |GenerateAlert(x, backend)| > 0
    ensures backend(BuildUserPrompt(x)).Success? ==>
              !IsSpace(GenerateAlert(x, backend)[0])
              && !IsSpace(GenerateAlert(x, backend)[|GenerateAlert(x, backend)| - 1])
  {
    match backend(BuildUserPrompt(x))
    case Success(text) =>
      StripEmptyIffBlank(text);
    case Failure(_) =>
      FallbackContents(x);
  }

  /** Two backends that both fail on the prompt, for whatever reasons, give the same alert. */
  lemma FailureKindIsInvisible(x: XaiRecord, b1: string -> BackendOutcome, b2: string -> BackendOutcome)
    requires b1(BuildUserPrompt(x)).Failure? && b2(BuildUserPrompt(x)).Failure?
    ensures GenerateAlert(x, b1) == GenerateAlert(x, b2) == FallbackAlert(x)
  {
  }
}
