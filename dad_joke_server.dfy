/**
 * The two prompt handlers of the dad-joke server: `list_prompts`, which
 * describes the one prompt the server offers, and `get_prompt`, which checks
 * the request, resolves the joke style and fills in the style's template.
 * Protocol objects are plain datatypes here; logging is reduced to the fields
 * the handler logs after building a prompt.
 */
module DadJokeServer {
  import opened Wrappers
  import opened Ascii
  import Text
  import opened JokeStyles

  /** The only prompt name the server knows. */
  const PromptName: string := "dad_joke"

  /** An argument a prompt accepts, as `list_prompts` describes it. */
  datatype PromptArgument = PromptArgument(name: string, description: string, required: bool)

  /** A prompt the server offers. */
  datatype Prompt = Prompt(name: string, description: string, arguments: seq<PromptArgument>)

  /** Text content of a message; `contentType` is the protocol's `type` field. */
  datatype TextContent = TextContent(contentType: string, text: string)

  datatype PromptMessage = PromptMessage(role: string, content: TextContent)

  /** What `get_prompt` returns to the client. */
  datatype GetPromptResult = GetPromptResult(description: string, messages: seq<PromptMessage>)

  /** The style, topic and prompt length that `get_prompt` logs on success. */
  datatype PromptLog = PromptLog(topic: string, style: string, promptLength: nat)

  /** A successful `get_prompt`: the result and its log record. */
  datatype Generated = Generated(result: GetPromptResult, log: PromptLog)

  /** The `ValueError` that `get_prompt` raises. */
  datatype PromptError = ValueError(message: string)

  const StyleOptionsLead: string := "The style of dad joke. Options: "
  const StyleOptionsTail: string := ". Default: classic"
  const OptionSeparator: string := ", "

  /** The descriptor list `list_prompts` returns. */
  function ListPrompts(): seq<Prompt> {
    [Prompt(
      PromptName,
      "Generate a dad joke prompt about any topic. Supports multiple joke styles.",
      [PromptArgument("topic", "The topic or subject for the dad joke", true),
       PromptArgument("style", StyleOptionsLead + Text.Join(Keys, OptionSeparator) + StyleOptionsTail, false)])]
  }

  /**
   * `arguments.get("style", "classic").lower()` looked up in the catalog; a
   * value that is not a key after lower-casing falls back to the default.
   */
  function ResolveStyle(requested: Option<string>): (r: Style)
    ensures requested.None? ==> r == DefaultStyle
    ensures requested.Some? && Lower(requested.value) in Keys ==> Key(r) == Lower(requested.value)
    ensures requested.Some? && Lower(requested.value) !in Keys ==> r == DefaultStyle
    ensures Key(r) in Keys
  {
    var key := Lower(requested.GetOr("classic"));
    LookupCatalog(key);
    LookupDefault();
    match Lookup(key)
    case Some(s) => s
    case None => DefaultStyle
  }

  /** The `style` entry of the argument map, if there is one. */
  function StyleArgument(arguments: map<string, string>): Option<string> {
    if "style" in arguments then Some(arguments["style"]) else None
  }

  /** The request names a topic: the argument map is present, non-empty and has a `topic` key. */
  predicate HasTopic(arguments: Option<map<string, string>>) {
    !(arguments.None? || arguments.value == map[] || "topic" !in arguments.value)
  }

  /**
   * `get_prompt(name, arguments)`. An unknown name fails first, then a missing
   * topic; otherwise the result describes the topic and the resolved style and
   * carries one user message whose text is the style's template with the
   * topic, verbatim, in place of `{topic}`.
   */
  function GetPrompt(name: string, arguments: Option<map<string, string>>): (r: Result<Generated, PromptError>)
    ensures name != PromptName ==> r == Failure(ValueError("Unknown prompt: " + name))
    ensures name == PromptName && !HasTopic(arguments) ==>
      r == Failure(ValueError("Missing required argument: topic"))
    ensures r.Success? <==> name == PromptName && arguments.Some? && "topic" in arguments.value
    ensures r.Success? ==>
      var topic := arguments.value["topic"];
      var style := ResolveStyle(StyleArgument(arguments.value));
      var text := Prefix(style) + topic + Suffix(style);
      && r.value.result.description == "Dad joke prompt about " + topic + " in " + Key(style) + " style"
      && r.value.result.messages == [PromptMessage("user", TextContent("text", text))]
      && r.value.log == PromptLog(topic, Key(style), |Prefix(style)| + |topic| + |Suffix(style)|)
  {
    if name != PromptName then
      Failure(ValueError("Unknown prompt: " + name))
    else if !HasTopic(arguments) then
      Failure(ValueError("Missing required argument: topic"))
    else
      var topic := arguments.value["topic"];
      var style := ResolveStyle(StyleArgument(arguments.value));
      var text := Text.Format(Template(style), topic);
      FormatTemplate(style, topic);
      Success(Generated(
        GetPromptResult(
          "Dad joke prompt about " + topic + " in " + Key(style) + " style",
          [PromptMessage("user", TextContent("text", text))]),
        PromptLog(topic, Key(style), |text|)))
  }

  /** A string and its lower-cased form resolve to the same style. */
  lemma ResolveIgnoresCase(s: string)
    ensures ResolveStyle(Some(s)) == ResolveStyle(Some(Lower(s)))
  {
    LowerIdempotent(s);
  }

  /** Any casing of a key resolves to that key's style. */
  lemma ResolveAnyCasing(s: string, k: Style)
    requires Lower(s) == Lower(Key(k))
    ensures ResolveStyle(Some(s)) == k
  {
    KeysAreLowerCase(k);
    LowerFixesLowerCase(Key(k));
    LookupKey(k);
  }

  /**
   * A requested style holding a character that no key holds, once
   * lower-cased (a space, say), falls back to the default.
   */
  lemma ResolveRejectsForeignChar(s: string, i: int)
    requires 0 <= i < |s| && !IsKeyChar(LowerChar(s[i]))
    ensures ResolveStyle(Some(s)) == DefaultStyle
  {
    CatalogKeys();
    forall j | 0 <= j < |Keys| ensures Keys[j] != Lower(s) {
      KeysAreWellFormed(AllStyles[j]);
      assert Lower(s)[i] == LowerChar(s[i]);
    }
  }

  /** Surrounding whitespace is not trimmed: a padded key falls back; an upper-case key does not. */
  lemma ResolveExamples()
    ensures ResolveStyle(Some(" pun")) == Classic
    ensures ResolveStyle(Some("pun ")) == Classic
    ensures ResolveStyle(Some("PUN")) == Pun
    ensures ResolveStyle(Some("Knock-Knock")) == KnockKnock
  {
    ResolveRejectsForeignChar(" pun", 0);
    ResolveRejectsForeignChar("pun ", 3);
    ResolveAnyCasing("PUN", Pun);
    ResolveAnyCasing("Knock-Knock", KnockKnock);
  }

  /**
   * Style matching is case-insensitive for the whole request: replacing the
   * style argument by its lower-cased form changes nothing in the result.
   */
  lemma GetPromptIgnoresStyleCase(name: string, arguments: map<string, string>, style: string)
    ensures GetPrompt(name, Some(arguments["style" := style]))
         == GetPrompt(name, Some(arguments["style" := Lower(style)]))
  {
    var a, b := arguments["style" := style], arguments["style" := Lower(style)];
    assert StyleArgument(a) == Some(style);
    assert StyleArgument(b) == Some(Lower(style));
    ResolveIgnoresCase(style);
    assert ("topic" in a) == ("topic" in b);
    if "topic" in a {
      assert a["topic"] == b["topic"];
    }
  }

  /**
   * The topic reaches the prompt text verbatim, right after the style's
   * prefix; an empty topic is accepted like any other.
   */
  lemma GetPromptTopicVerbatim(arguments: map<string, string>)
    requires "topic" in arguments
    ensures var r := GetPrompt(PromptName, Some(arguments));
      var style := ResolveStyle(StyleArgument(arguments));
      var topic := arguments["topic"];
      && r.Success?
      && r.value.result.messages[0].content.text[|Prefix(style)|..|Prefix(style)| + |topic|] == topic
      && r.value.log.promptLength == |r.value.result.messages[0].content.text|
  {
  }

  /**
   * Falling back is visible to the caller: a requested style that is not a
   * key, after lower-casing, is reported as `classic` in the description and
   * the log, and so differs from what was requested.
   */
  lemma FallbackIsVisible(arguments: map<string, string>)
    requires "topic" in arguments && "style" in arguments
    requires Lower(arguments["style"]) !in Keys
    ensures var r := GetPrompt(PromptName, Some(arguments));
      && r.Success?
      && r.value.log.style == "classic" != Lower(arguments["style"])
      && r.value.result.description
         == "Dad joke prompt about " + arguments["topic"] + " in " + "classic" + " style"
  {
    var style := ResolveStyle(StyleArgument(arguments));
    assert style == DefaultStyle;
    assert Keys[7] == Key(DefaultStyle);
  }

  /**
   * The descriptor and the handler agree: `get_prompt` for the listed prompt
   * succeeds exactly when every argument the descriptor marks as required
   * is present.
   */
  lemma DescriptorMatchesValidation(arguments: map<string, string>)
    ensures var p := ListPrompts()[0];
      && p.name == PromptName
      && (GetPrompt(p.name, Some(arguments)).Success? <==>
          forall i :: 0 <= i < |p.arguments| && p.arguments[i].required ==> p.arguments[i].name in arguments)
  {
    var args := ListPrompts()[0].arguments;
    assert args[0].required && args[0].name == "topic";
    assert !args[1].required;
  }

  /**
   * `list_prompts` offers one prompt, `dad_joke`, with a required `topic` and
   * an optional `style` whose description lists the catalog keys.
   */
  lemma ListPromptsShape()
    ensures |ListPrompts()| == 1
    ensures var p := ListPrompts()[0];
      && p.name == PromptName
      && |p.arguments| == 2
      && p.arguments[0].name == "topic" && p.arguments[0].required
      && p.arguments[1].name == "style" && !p.arguments[1].required
      && p.arguments[1].description == StyleOptionsLead + Text.Join(Keys, OptionSeparator) + StyleOptionsTail
  {
  }

  /**
   * The `style` argument's description lists the catalog keys in catalog
   * order, separated by ", ", between a fixed lead and tail.
   */
  lemma StyleOptionsListCatalog()
    ensures var d := StyleOptionsLead + Text.Join(Keys, OptionSeparator) + StyleOptionsTail;
      && |StyleOptionsLead| + |StyleOptionsTail| <= |d|
      && d[..|StyleOptionsLead|] == StyleOptionsLead
      && d[|d| - |StyleOptionsTail|..] == StyleOptionsTail
      && Text.Split(d[|StyleOptionsLead|..|d| - |StyleOptionsTail|], OptionSeparator) == Keys
  {
    KeysHaveNoComma();
    Text.JoinedListReadsBack(StyleOptionsLead, Keys, OptionSeparator, StyleOptionsTail);
  }

  /** The tail of the `style` description names the default style. */
  lemma StyleOptionsNameDefault()
    ensures StyleOptionsTail == ". Default: " + Key(DefaultStyle)
  {
  }
}
