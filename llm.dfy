/** Choosing a language-model configuration from a model name, and the keyword arguments each
    configuration passes to its chat-model constructor. */
module Llm {
  import opened Wrappers
  import opened Strings

  /** The three configuration classes with their integer and boolean fields; `apiKey` is the
      secret's text. The float fields (`temperature`, `top_p`) are not modelled. */
  datatype LLMConfig =
    | Gemini(model: string, apiKey: string, convertSystemMessageToHuman: bool, topK: int, maxOutputTokens: int)
    | OpenAI(model: string, apiKey: string, baseUrl: Option<string>)
    | Anthropic(model: string, apiKey: string, maxTokens: Option<int>)

  const DeepSeekUrl: string := "https://api.deepseek.com/v1"

  /** `GeminiConfig(model=…, api_key=…)` with the field defaults. */
  function GeminiConfig(model: string, apiKey: string): (c: LLMConfig)
    ensures c.Gemini? && c.model == model && c.apiKey == apiKey
    ensures c.convertSystemMessageToHuman && c.topK == 32 && c.maxOutputTokens == 2048
  {
    Gemini(model, apiKey, true, 32, 2048)
  }

  /** `AnthropicConfig(model=…, api_key=…)` with the field defaults. */
  function AnthropicConfig(model: string, apiKey: string): (c: LLMConfig)
    ensures c.Anthropic? && c.model == model && c.apiKey == apiKey && c.maxTokens.None?
  {
    Anthropic(model, apiKey, None)
  }

  /** `create_llm_config`: case-sensitive prefix tests first, then case-insensitive substring
      tests; the first test that holds decides, and a name that passes none is refused. */
  function CreateLlmConfig(model: string, apiKey: string): (r: Result<LLMConfig, string>)
    ensures r.Success? ==> r.value.model == model && r.value.apiKey == apiKey
    ensures r.Failure? ==> r.error == "Unsupported model: " + model
  {
    if IsPrefix("gemini", model) then Success(GeminiConfig(model, apiKey))
    else if IsPrefix("gpt", model) then Success(OpenAI(model, apiKey, None))
    else if Contains(Lower(model), "claude") then Success(AnthropicConfig(model, apiKey))
    else if Contains(Lower(model), "deepseek") then Success(OpenAI(model, apiKey, Some(DeepSeekUrl)))
    else Failure("Unsupported model: " + model)
  }

  /** The chat-model class each `create_llm` instantiates. */
  datatype ChatModel = ChatGoogleGenerativeAI | ChatOpenAI | ChatAnthropic

  /** `create_llm`: the class it calls and the keyword arguments it passes. Only the OpenAI
      configuration passes a base URL, and only a non-empty one; no configuration passes its
      other fields. */
  function CreateLlm(c: LLMConfig): (call: (ChatModel, map<string, string>))
    ensures "model" in call.1 && call.1["model"] == c.model
    ensures "api_key" in call.1 && call.1["api_key"] == c.apiKey
    ensures "base_url" in call.1 <==> c.OpenAI? && c.baseUrl.Some? && c.baseUrl.value != ""
    ensures "base_url" in call.1 ==> call.1["base_url"] == c.baseUrl.value
    ensures call.1.Keys <= {"model", "api_key", "base_url"}
    ensures call.0 == ChatOpenAI <==> c.OpenAI?
    ensures call.0 == ChatGoogleGenerativeAI <==> c.Gemini?
  {
    var kwargs := map["model" := c.model, "api_key" := c.apiKey];
    match c
    case Gemini(_, _, _, _, _) => (ChatGoogleGenerativeAI, kwargs)
    case OpenAI(_, _, baseUrl) =>
      if baseUrl.Some? && baseUrl.value != "" then (ChatOpenAI, kwargs["base_url" := baseUrl.value])
      else (ChatOpenAI, kwargs)
    case Anthropic(_, _, _) => (ChatAnthropic, kwargs)
  }

  // ---------------------------------------------------------------------------------------------
  // The decision table

  /** Which configuration a name selects, stated test by test: each branch is taken exactly when
      its own test holds and every earlier one fails. */
  lemma DecisionTable(model: string, apiKey: string)
    ensures var r := CreateLlmConfig(model, apiKey);
      && (r.Success? && r.value.Gemini? <==> IsPrefix("gemini", model))
      && (r.Success? && r.value.OpenAI? && r.value.baseUrl.None? <==>
            !IsPrefix("gemini", model) && IsPrefix("gpt", model))
      && (r.Success? && r.value.Anthropic? <==>
            !IsPrefix("gemini", model) && !IsPrefix("gpt", model) && Contains(Lower(model), "claude"))
      && (r.Success? && r.value.OpenAI? && r.value.baseUrl == Some(DeepSeekUrl) <==>
            !IsPrefix("gemini", model) && !IsPrefix("gpt", model) && !Contains(Lower(model), "claude")
            && Contains(Lower(model), "deepseek"))
      && (r.Failure? <==>
            !IsPrefix("gemini", model) && !IsPrefix("gpt", model) && !Contains(Lower(model), "claude")
            && !Contains(Lower(model), "deepseek"))
  {
  }

  /** The substring tests ignore case: a name that mentions "claude" in any mix of cases, and
      starts with neither "gemini" nor "gpt", selects Anthropic. */
  lemma ClaudeAnyCase(model: string, apiKey: string)
    requires exists i: nat | i <= |model| :: OccursAtIgnoringCase(model, "claude", i)
    requires !IsPrefix("gemini", model) && !IsPrefix("gpt", model)
    ensures CreateLlmConfig(model, apiKey).Success? && CreateLlmConfig(model, apiKey).value.Anthropic?
  {
    var i: nat :| i <= |model| && OccursAtIgnoringCase(model, "claude", i);
    LowerSlice(model, i, i + 6);
    assert OccursAt(Lower(model), "claude", i);
  }

  /** A capitalised name such as "Claude 3.5 Sonnet" is an Anthropic name. */
  lemma CapitalClaude(apiKey: string)
    ensures CreateLlmConfig("Claude 3.5 Sonnet", apiKey) == Success(AnthropicConfig("Claude 3.5 Sonnet", apiKey))
  {
    var model := "Claude 3.5 Sonnet";
    assert model[0] != "gemini"[0] && model[0] != "gpt"[0];
    assert model[0..6] == "Claude";
    assert Lower("Claude") == "claude";
    assert OccursAtIgnoringCase(model, "claude", 0);
    ClaudeAnyCase(model, apiKey);
  }

  /** Every configuration the factory makes leads to a `create_llm` call that passes the model
      name and key, and a base URL exactly for a DeepSeek name. */
  lemma CreatedKwargs(model: string, apiKey: string)
    requires CreateLlmConfig(model, apiKey).Success?
    ensures var call := CreateLlm(CreateLlmConfig(model, apiKey).value);
      && call.1["model"] == model && call.1["api_key"] == apiKey
      && ("base_url" in call.1 <==>
            !IsPrefix("gemini", model) && !IsPrefix("gpt", model) && !Contains(Lower(model), "claude"))
      && ("base_url" in call.1 ==> call.1["base_url"] == DeepSeekUrl)
  {
    DecisionTable(model, apiKey);
  }

  // ---------------------------------------------------------------------------------------------
  // Overlapping names

  lemma GptPrefix()
    ensures IsPrefix("gpt", "gpt-4-claude")
  {
    assert "gpt-4-claude"[..3] == "gpt";
  }

  /** Branch order decides overlaps: a `gpt` name that also mentions Claude is an OpenAI name. */
  lemma GptBeforeClaude(apiKey: string)
    ensures CreateLlmConfig("gpt-4-claude", apiKey) == Success(OpenAI("gpt-4-claude", apiKey, None))
  {
    GptPrefix();
    assert "gpt-4-claude"[..6][1] != "gemini"[1];
  }

  lemma CapitalGeminiPrefixes()
    ensures !IsPrefix("gemini", "Gemini") && !IsPrefix("gpt", "Gemini")
  {
    assert "Gemini"[0] != "gemini"[0];
    assert "Gemini"[0] != "gpt"[0];
  }

  lemma CapitalGeminiMentions()
    ensures !Contains(Lower("Gemini"), "claude") && !Contains(Lower("Gemini"), "deepseek")
  {
    assert |Lower("Gemini")| == 6;
    assert !Contains(Lower("Gemini"), "deepseek");
    forall i: nat | i <= 6 ensures !OccursAt(Lower("Gemini"), "claude", i) {
      if i == 0 {
        assert Lower("Gemini")[0] == 'g';
        assert Lower("Gemini")[i..i + 6][0] != "claude"[0];
      }
    }
  }

  /** The prefix tests are case-sensitive: "Gemini" is refused. */
  lemma CapitalGeminiRefused(apiKey: string)
    ensures CreateLlmConfig("Gemini", apiKey) == Failure("Unsupported model: Gemini")
  {
    CapitalGeminiPrefixes();
    CapitalGeminiMentions();
    assert "Unsupported model: " + "Gemini" == "Unsupported model: Gemini";
  }
}
