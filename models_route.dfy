/**
 * `GET /api/models`: the five selectable models, each with its status
 * derived from which keys the environment configures.
 */
module ModelsRoute {
  import opened Types
  import opened ApiUtils

  datatype Availability = Availability(gemini: bool, openai: bool, claude: bool)

  /** The route's own `availability`: every provider, Gemini included, follows its key. */
  function KeyAvailability(env: map<string, string>): (a: Availability)
    ensures a.gemini <==> KeyConfigured(env, "GEMINI_API_KEY")
    ensures a.openai <==> KeyConfigured(env, "OPENAI_API_KEY")
    ensures a.claude <==> KeyConfigured(env, "ANTHROPIC_API_KEY")
  {
    Availability(KeyConfigured(env, "GEMINI_API_KEY"), KeyConfigured(env, "OPENAI_API_KEY"),
      KeyConfigured(env, "ANTHROPIC_API_KEY"))
  }

  datatype ModelInfo = ModelInfo(
    id: string, name: string, provider: string, status: string, statusColor: string,
    available: bool, isDefault: bool, description: string)

  const GEMINI_20_NAME := "Gemini 2.0 Flash (Experimental)"
  const GEMINI_20_READY := "Latest experimental Gemini model with enhanced capabilities"
  const GEMINI_20_NEEDS_KEY := "Latest experimental Gemini model (requires API key)"
  const GEMINI_15_LATEST_NAME := "Gemini 1.5 Flash (Latest)"
  const GEMINI_15_LATEST_READY := "Latest Gemini 1.5 Flash with most recent updates"
  const GEMINI_15_LATEST_NEEDS_KEY := "Latest Gemini 1.5 Flash (requires API key)"
  const GEMINI_15_NAME := "Gemini 1.5 Flash"
  const GEMINI_15_READY := "Fast, reliable Gemini model for most use cases"
  const GEMINI_15_NEEDS_KEY := "Fast, reliable Gemini model (requires API key)"

  /** Status and colour agree with the `available` flag. */
  predicate Coherent(m: ModelInfo) {
    (m.status == AVAILABLE <==> m.available) && (m.status == KEY_REQUIRED <==> !m.available) &&
    (m.statusColor == GREEN <==> m.available) && (m.statusColor == ORANGE <==> !m.available)
  }

  /** The fixed columns of one entry, and the provider whose key decides the rest. */
  datatype Row = Row(id: string, name: string, provider: string, key: Provider, isDefault: bool,
                     ready: string, needsKey: string)

  const ROWS: seq<Row> := [
    Row(MODEL_IDS[0], GEMINI_20_NAME, "Google", GeminiProvider, true, GEMINI_20_READY, GEMINI_20_NEEDS_KEY),
    Row(MODEL_IDS[1], GEMINI_15_LATEST_NAME, "Google", GeminiProvider, false, GEMINI_15_LATEST_READY, GEMINI_15_LATEST_NEEDS_KEY),
    Row(MODEL_IDS[2], GEMINI_15_NAME, "Google", GeminiProvider, false, GEMINI_15_READY, GEMINI_15_NEEDS_KEY),
    Row(MODEL_IDS[3], GPT4_TURBO, "OpenAI", OpenAIProvider, false, OPENAI_CONFIGURED, OPENAI_NEEDS_KEY),
    Row(MODEL_IDS[4], CLAUDE_SONNET, "Anthropic", ClaudeProvider, false, CLAUDE_CONFIGURED, CLAUDE_NEEDS_KEY)]

  function Available(a: Availability, p: Provider): bool {
    match p
    case GeminiProvider => a.gemini
    case OpenAIProvider => a.openai
    case ClaudeProvider => a.claude
  }

  /** One entry of the list: status, colour, flag and description all follow `available`. */
  function Entry(r: Row, available: bool): (m: ModelInfo)
    ensures m.id == r.id && m.available == available && m.isDefault == r.isDefault
    ensures Coherent(m)
    ensures m.description == (if available then r.ready else r.needsKey)
  {
    ModelInfo(r.id, r.name, r.provider, if available then AVAILABLE else KEY_REQUIRED,
      if available then GREEN else ORANGE, available, r.isDefault, if available then r.ready else r.needsKey)
  }

  function Models(a: Availability): (ms: seq<ModelInfo>)
    ensures |ms| == |ROWS|
  {
    seq(|ROWS|, i requires 0 <= i < |ROWS| => Entry(ROWS[i], Available(a, ROWS[i].key)))
  }

  datatype ModelsData = ModelsData(availability: Availability, models: seq<ModelInfo>)

  datatype ModelsResponse = ModelsResponse(success: bool, data: ModelsData)

  /** `GET`: always a success, with the environment's availability and the list built from it. */
  function Get(env: map<string, string>): (r: ModelsResponse)
    ensures r.success
    ensures r.data.availability == KeyAvailability(env)
    ensures |r.data.models| == |MODEL_IDS|
  {
    ModelsResponse(true, ModelsData(KeyAvailability(env), Models(KeyAvailability(env))))
  }

  /** The list holds the five selectable ids in their declared order, and only the first, Gemini 2.0, is the default. */
  lemma ModelIds(a: Availability)
    ensures var ms := Models(a);
      |ms| == |MODEL_IDS| && (forall i :: 0 <= i < |ms| ==> ms[i].id == MODEL_IDS[i]) &&
      (forall i :: 0 <= i < |ms| ==> (ms[i].isDefault <==> i == 0)) && ms[0].id == "gemini-2.0-flash-exp"
  {
  }

  /**
   * Every entry's status and colour agree with its flag; the three Gemini
   * entries share Gemini's availability, and the other two follow OpenAI
   * and Anthropic.
   */
  lemma ModelAvailability(a: Availability)
    ensures var ms := Models(a);
      |ms| == 5 && (forall i :: 0 <= i < |ms| ==> Coherent(ms[i])) &&
      (forall i :: 0 <= i < |GEMINI_IDS| ==> ms[i].available == a.gemini) &&
      ms[3].available == a.openai && ms[4].available == a.claude
  {
  }

  /**
   * The route and `checkApiAvailability` agree on the paid providers; they
   * differ on Gemini, which the route reports unavailable without a key.
   */
  lemma AvailabilityAgrees(env: map<string, string>)
    ensures KeyAvailability(env).openai == CheckApiAvailability(env).openai
    ensures KeyAvailability(env).claude == CheckApiAvailability(env).claude
    ensures !KeyConfigured(env, "GEMINI_API_KEY") ==> !KeyAvailability(env).gemini && CheckApiAvailability(env).gemini
  {
  }
}
