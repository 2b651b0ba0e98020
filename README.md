# Dad-joke prompt builder, modelled in Dafny

The dad-joke server offers one prompt, `dad_joke`, over the Model Context
Protocol. It does not write jokes. It builds the instruction text that a
language model then follows. This project models the decision logic of
`src/server.py` as pure Dafny functions and proves what that logic promises:

- **Style catalog** (`JOKE_STYLES`, module `JokeStyles`). There are eight
  lower-case keys in a fixed order. Each template has exactly one `{topic}`
  field. A template is stored as the text before the field (`Prefix`) and the
  text after it (`Suffix`). Both are written as lists of short pieces that
  `Text.Concat` joins. The catalog is a `map` from key to style, used for the
  dictionary lookup, plus the ordered list `Keys` for `JOKE_STYLES.keys()`.
- **`get_prompt`** (module `DadJokeServer`, `GetPrompt`). Checks run in the
  source's order: the prompt name first, then the topic.
  - The style is `arguments.get("style", "classic").lower()`, looked up in
    the catalog. If it is not found, it falls back to `classic` without an
    error.
  - The text is `str.format` of the template (`Text.Format`), proved equal to
    `Prefix + topic + Suffix`.
  - The result carries a description and one user message. The fields the
    handler logs (topic, resolved style, prompt length) are returned as a
    `PromptLog`.
- **`list_prompts`** (`ListPrompts`). One prompt with a required `topic` and
  an optional `style`. The style's description lists the catalog keys joined
  by `", "`, and `Text.Split` reads them back.

Helper modules:
- `Wrappers`: `Option` and `Result`.
- `Ascii`: `str.lower` restricted to ASCII.
- `Text`: `str.format` for the one named field, `str.join`, a splitter, and
  character counts.

Every operation is a Dafny function, so identical inputs give identical
outputs by construction.

Behaviour worth noting:
- The style is lower-cased but not trimmed. `" pun"` falls back to `classic`
  (`ResolveExamples`).
- The topic is neither trimmed nor required to be non-empty. Only a missing
  argument map, an empty map, or a map without a `topic` key is an error. An
  empty or all-space topic is accepted.
- The failure is a `ValueError` whose message is `"Missing required argument:
  topic"` or `"Unknown prompt: " + name`.
- Each catalog entry is a key and a template. Of the values the handlers
  return, only the `style` argument's description holds the key list. The
  program also logs the list (`available_styles` in the fallback warning and
  in the startup log), but logging is left out.

## Model

| member | source | states |
|---|---|---|
| JokeStyles.CatalogKeys | src/server.py:73-89 | the catalog lists each of the eight styles once, in the fixed order pun … classic; the dictionary's key set is exactly `Keys`; the keys are pairwise distinct |
| JokeStyles.Keys | src/server.py:73-89 | constant, no ensures: `JOKE_STYLES.keys()` in catalog order; its contents, order and distinctness are stated in `CatalogKeys` |
| JokeStyles.Catalog | src/server.py:73-89 | constant, no ensures: `JOKE_STYLES` as a map from key to style; its key set equals `Keys` by `CatalogKeys`, and lookups are stated in `LookupCatalog` |
| JokeStyles.Key | src/server.py:73-89 | no ensures: the dictionary key of each style; `CatalogKeys` states `Keys[i] == Key(AllStyles[i])`, `KeysAreWellFormed` its characters |
| JokeStyles.Prefix | src/server.py:74-88 | no ensures: the template text before `{topic}`; brace-free by `TemplateHasOneField` |
| JokeStyles.Suffix | src/server.py:74-88 | no ensures: the template text after `{topic}`; brace-free by `TemplateHasOneField` |
| JokeStyles.Template | src/server.py:74-88 | no ensures: the template literal, `Prefix + "{topic}" + Suffix`; its single field is stated in `TemplateHasOneField`, its formatting in `FormatTemplate` |
| JokeStyles.Lookup | src/server.py:198-210 | no ensures: `style in JOKE_STYLES` (`:198`) and `JOKE_STYLES[style]` (`:210`) as one lookup; stated in `LookupCatalog`, `LookupKey` and `LookupDefault` |
| JokeStyles.LookupCatalog | src/server.py:198 | a string finds a style exactly when it is one of the keys, and the style found has that string as its key |
| JokeStyles.LookupKey | src/server.py:198-210 | every style's key looks up that style |
| JokeStyles.LookupDefault | src/server.py:195 | the default `"classic"` is unchanged by lower-casing and looks up the default style |
| JokeStyles.KeysAreWellFormed | src/server.py:73-89 | every key consists of lower-case ASCII letters and `-` only |
| JokeStyles.KeysAreLowerCase | src/server.py:73-89 | every key is lower-case and contains no comma |
| JokeStyles.KeysHaveNoComma | src/server.py:142 | no entry of `Keys` holds a comma, so the `", "`-joined list can be split back |
| JokeStyles.PiecesBraceFree | src/server.py:73-89 | no piece of any template's prefix or suffix contains `{` or `}` |
| JokeStyles.TemplateHasOneField | src/server.py:73-89 | each template's prefix and suffix are brace-free; the template holds exactly one `{` and one `}`; they form the `{topic}` field at offset `|Prefix|` |
| JokeStyles.FormatTemplate | src/server.py:210 | `template.format(topic=t)` equals prefix + `t` + suffix, for every style and every topic |
| Text.Format | src/server.py:210 | formatting text that has no braces returns it unchanged |
| Text.FormatCopiesBraceFreePrefix | src/server.py:210 | text before the first brace is copied verbatim by formatting |
| Text.FormatSingleField | src/server.py:210 | brace-free text around a single `{topic}` field formats to that text with the topic in place of the field |
| Text.SingleFieldBraces | src/server.py:73-89 | brace-free text around one field gives exactly one `{` and one `}`, located at the field |
| Text.Join | src/server.py:142 | no ensures: `', '.join(...)`; its inverse is stated in `SplitJoin` and `JoinedListReadsBack` |
| Text.Split | src/server.py:142 | the source only joins at this line; `Split` is the inverse used to read the joined key list back, and it always yields at least one piece |
| Text.SplitJoin | src/server.py:142 | (read-back of the join, not code at this line) splitting a non-empty `sep.join(parts)` returns `parts` when no part contains the separator's first character |
| Text.JoinedListReadsBack | src/server.py:142 | (read-back of the join, not code at this line) a list joined between a fixed lead and tail can be cut out at known offsets and split back into the list |
| Ascii.LowerChar | src/server.py:195 | the result is never an upper-case letter; non-letters are unchanged; an upper-case letter maps to the lower-case letter at the same alphabet position |
| Ascii.Lower | src/server.py:195 | lower-casing preserves length and lower-cases each character in place |
| Ascii.LowerFixesLowerCase | src/server.py:195 | the result of `Lower` is lower-case; `Lower(s) == s` exactly when `s` is already lower-case |
| Ascii.LowerIdempotent | src/server.py:195 | lower-casing twice equals lower-casing once |
| DadJokeServer.ResolveStyle | src/server.py:195-207 | an absent style resolves to `classic`; a style whose lower-cased form is a key resolves to that key; any other style resolves to `classic`; the resolved style's key is always in the catalog |
| DadJokeServer.StyleArgument | src/server.py:195 | no ensures: `arguments.get("style")` as an option; its use is stated in `GetPromptIgnoresStyleCase` and `FallbackIsVisible` |
| DadJokeServer.HasTopic | src/server.py:183 | no ensures: `not arguments or "topic" not in arguments`, negated; the error it selects is stated in `GetPrompt`, its match with the descriptor in `DescriptorMatchesValidation` |
| DadJokeServer.GetPrompt | src/server.py:162-236 | an unknown name fails with `"Unknown prompt: " + name` whatever the arguments; an absent, empty or topic-less map then fails with `"Missing required argument: topic"`; it succeeds exactly for `dad_joke` with a `topic` key; on success the description names the topic and the resolved style, there is one user text message whose text is prefix + topic + suffix of the resolved style, and the logged length is the sum of their lengths |
| DadJokeServer.ResolveIgnoresCase | src/server.py:195-198 | a string and its lower-cased form resolve to the same style |
| DadJokeServer.ResolveAnyCasing | src/server.py:195-198 | any string that lower-cases to a key resolves to that key's style |
| DadJokeServer.ResolveRejectsForeignChar | src/server.py:195-207 | a style holding a character that no lower-cased key can hold, such as a space, falls back to `classic` |
| DadJokeServer.ResolveExamples | src/server.py:195-207 | `" pun"` and `"pun "` fall back to `classic`; `"PUN"` resolves to `pun`; `"Knock-Knock"` resolves to `knock-knock` |
| DadJokeServer.GetPromptIgnoresStyleCase | src/server.py:194-223 | replacing the style argument by its lower-cased form leaves the whole `get_prompt` result unchanged |
| DadJokeServer.GetPromptTopicVerbatim | src/server.py:210-232 | with any `topic` value, including `""`, the request succeeds; the topic appears verbatim right after the style's prefix; the logged length is the text's length |
| DadJokeServer.FallbackIsVisible | src/server.py:198-213 | an unknown style is reported as `classic` in both the log and the description, which differs from the lower-cased request |
| DadJokeServer.DescriptorMatchesValidation | src/server.py:183-194 | `get_prompt` on the listed prompt succeeds exactly when every argument that `list_prompts` marks as required is present |
| DadJokeServer.ListPrompts | src/server.py:130-147 | no ensures: the descriptor `list_prompts` returns; its shape is stated in `ListPromptsShape`, its key list in `StyleOptionsListCatalog` |
| DadJokeServer.ListPromptsShape | src/server.py:130-147 | `list_prompts` returns one prompt, `dad_joke`, whose arguments are a required `topic` and an optional `style`, and whose style description is the lead + joined keys + tail |
| DadJokeServer.StyleOptionsListCatalog | src/server.py:142 | the style description starts with the fixed lead and ends with the fixed tail; the text between them splits at `", "` into exactly the catalog keys, in catalog order |
| DadJokeServer.StyleOptionsNameDefault | src/server.py:142 | the description's tail names the default style |

## Left out

- Logging (`setup_logging`, `log_request`, `log_response`, every `logger` call): these are output sinks. The fields `get_prompt` logs on success are returned as `PromptLog`. The warning logged on fallback is not modelled.
- Request ids (`uuid.uuid4()`) and timestamps (`datetime.utcnow()`): randomness and clock reads.
- `run_server` and `main`: SSE transport, Starlette routing, uvicorn, asyncio and process exit handling.
- `async`, and the MCP SDK's `GetPromptResult`, `Prompt`, `PromptArgument`, `PromptMessage` and `TextContent` classes: these are replaced by plain datatypes. The protocol's `type` field is `contentType`, because `type` is a Dafny keyword. Serialisation (`model_dump`) is not modelled.
- Raising `ValueError`: modelled as a `Failure(ValueError(message))` result.
- `src/config.py`: it loads settings from the environment and `.env` files. `config.py` is not part of this model.
- `str.lower` on non-ASCII characters: only ASCII letters are lower-cased. Python also maps some non-ASCII characters to ASCII letters, for example U+212A KELVIN SIGN to `k`. So `"\u212Anock-knock"` selects `knock-knock` in the program but falls back to `classic` in the model. `ResolveRejectsForeignChar`'s "no key can hold" holds only under ASCII lower-casing.
- `Text.Format`: models `str.format` only for the `{topic}` field. It copies every other character, braces included. Escaped braces (`{{`, `}}`), other fields, format specs, and the errors Python raises for stray braces are not modelled. The catalog's templates contain none of these (`TemplateHasOneField`).
- Argument values that are not strings: the model takes the handler's declared type, `dict[str, str]`.

