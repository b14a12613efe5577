# Prompt Evaluator: verified model of the selection logic

The Prompt Evaluator runs four agents over a user prompt and an existing
answer (Answer A). The critic rates Answer A. The fixer rewrites the prompt
into bullet lines. The generator answers one rewritten prompt (Answer B).
The comparator judges A against B. Every agent's text comes from a hosted
language model. This project models the deterministic logic around those
calls. It treats every model reply as an arbitrary input value.

- `text.dfy` (module `Text`): the parts of Python's `str` the pipeline
  uses. These are `isspace`, `strip`, `lstrip`, `rstrip`, `lstrip(chars)`,
  `lower`, the `in` substring test, `startswith` and `splitlines`.
- `lists.dfy` (module `Lists`): Python's filtering list comprehension
  `[f(x) for x in xs if keep(x)]` with `keep` and `f` as function values,
  and its general facts: how it splits over concatenation, how many
  elements it keeps, which ones come first, and how two comprehensions in
  a row fuse into one.
- `replies.dfy` (module `Replies`): what `generate_reply` returns (a
  string, a dict whose `content` is missing, `None` or a string, or `None`
  itself), chat messages, and the `AttributeError` raised on `None`.
- `fixer.dfy` (module `Fixer`): `PromptFixerAgent.fix`. It covers the
  request text, reply unwrapping, bullet extraction, the keyword scan
  `re.findall(r"[A-Za-z]{4,}", ...)`, the keyword filter and the cut to two.
- `config.dfy` (module `Config`): `get_llm_config`,
  `update_config_for_model` and `SUPPORTED_MODELS`. The environment is a
  map from variable name to value. A variable counts as set when it is
  present and non-empty, which is Python truthiness of `os.getenv`. A
  second, independent definition (a priority list of providers and "first
  provider whose key is set") is proved equal to the `if` chain.
- `pipeline.dfy` (module `Pipeline`):
  `PromptEvaluator.evaluate_prompt_response` is a function of the four
  agents' behaviour, passed in as functions. The fixer's behaviour
  returns a result, so its `AttributeError` stops the run as in the
  source. `PromptEvaluator` is a class
  with the evaluator's `llm_config` and four agent objects.
  `update_llm_config` is a method whose loop assigns each agent's
  configuration in turn.

Simplifications:
- `lower` is ASCII-only.
- Whitespace and line breaks follow Python's own character sets exactly.

Temperature, timeout and price are opaque values (`real`, `int`). The
parsing of `TEMPERATURE` and `TIMEOUT` is not modelled: `LoadDefaults`
receives them already parsed. It reads only `OLLAMA_BASE_URL`, with the
`http://localhost:11434/v1` fallback.

## Model

| member | source | states |
|---|---|---|
| Text.LStrip | agents/fixer.py:51 | the result of `lstrip()` is empty or does not start with whitespace |
| Text.LStripSpec | agents/fixer.py:51 | `lstrip()` returns a suffix of its input and cuts off only whitespace |
| Text.RStripSpec | agents/fixer.py:49 | the right half of `strip()` returns a prefix of its input and cuts off only whitespace |
| Text.StripBounds | agents/fixer.py:49 | `strip()` keeps `s[i..j]` for cut points `i <= j` with only whitespace before `i` and after `j` |
| Text.StripSpec | agents/fixer.py:49 | `strip()` returns an infix of the input with no whitespace at either end and only whitespace cut off, which fixes the result uniquely |
| Text.StripIdempotent | main.py:62 | stripping an already stripped answer changes nothing |
| Text.LStripChars | agents/fixer.py:49 | `lstrip("•- ")` stops at the first character that is not a marker character |
| Text.LStripCharsSpec | agents/fixer.py:49 | `lstrip("•- ")` returns a suffix of its input and removes only marker characters |
| Text.Lower | agents/fixer.py:59 | lower-casing keeps the length |
| Text.LowerPointwise | agents/fixer.py:59 | lower-casing maps each character on its own by ASCII lower-casing |
| Text.ContainsIff | agents/fixer.py:59 | `k in t` holds exactly when `k` occurs at some offset of `t` |
| Text.ContainsNeedsLength | agents/fixer.py:59 | a string contains only substrings no longer than itself |
| Text.SplitLinesHaveNoBreaks | agents/fixer.py:50 | no line produced by `splitlines` contains a line-break character |
| Text.SplitLinesOfTerminated | agents/fixer.py:50 | `splitlines` recovers exactly the lines of a reply written one break-free line per `\n` |
| Replies.UserTurn | main.py:58-60 | the message list is one user message whose content is the given text |
| Replies.Unwrap | agents/fixer.py:46 | a string reply is taken as is, a dict's string `content` as that string, a dict without `content` reads as `""`, a `None` content as `None`, and a `None` reply raises on `get` |
| Fixer.RequestRoundTrip | agents/fixer.py:41-44 | the request is the fixed header, the stripped prompt and the fixed trailer, and the stripped prompt can be read back from it |
| Fixer.Fix | agents/fixer.py:40-62 | `fix` returns at most two bullets, and its only failures are `AttributeError` on `get` (a `None` reply) and on `splitlines` (a `None` content) |
| Fixer.FixOutcome | agents/fixer.py:45-46 | `fix` raises exactly on a `None` reply or a `None` content; otherwise it filters the text of the reply to the request |
| Fixer.FixSendsOnlyRequest | agents/fixer.py:45 | the model is consulted only on the single user turn holding the request |
| Fixer.MissingContentGivesNothing | agents/fixer.py:46 | a dict reply without `content` yields `[]` |
| Fixer.CleanBullet | agents/fixer.py:49 | a cleaned bullet has no whitespace at either end |
| Fixer.TabBeforeMarkerKeepsIt | agents/fixer.py:49-51 | `"\t- item"` is a bullet line whose marker survives cleaning, because `lstrip("•- ")` stops at the tab |
| Fixer.RunsFromSound | agents/fixer.py:56 | every match of the `[A-Za-z]{4,}` scan is a maximal run of four or more ASCII letters |
| Fixer.RunsFromComplete | agents/fixer.py:56 | every maximal run of four or more ASCII letters is among the scan's matches |
| Fixer.KeywordsAreMaximalRuns | agents/fixer.py:56 | the keywords are exactly the lower-cased maximal runs of four or more ASCII letters of the prompt |
| Fixer.KeywordsAreLong | agents/fixer.py:56 | every keyword has at least four characters |
| Fixer.SelectFiltersOnce | agents/fixer.py:48-62 | the two comprehensions of `fix` (bullets, then keyword filter) and the cut to two equal one pass that keeps a line exactly when it is a bullet line whose cleaned form mentions a keyword |
| Fixer.PassingAppend | agents/fixer.py:48-60 | extraction and filtering work line by line, so the surviving bullets of concatenated lines are the concatenation of theirs |
| Fixer.FixText | agents/fixer.py:48-62 | `fix` returns at most two bullets, and its step-by-step result equals the one-pass reading of the reply lines with the prompt's keywords |
| Fixer.SelectCount | agents/fixer.py:48-62 | the number returned is two if at least two lines pass, otherwise the number of passing lines (counted independently) |
| Fixer.SelectFirstTwo | agents/fixer.py:48-62 | when lines i < j are the first two passing lines, the result is exactly their cleaned forms in that order |
| Fixer.SelectOnlyOne | agents/fixer.py:48-62 | when exactly one line passes, the result is its cleaned form alone |
| Fixer.NonBulletLineIgnored | agents/fixer.py:48-52 | inserting a line whose first non-whitespace character is not `•` or `-` anywhere in the reply leaves the result unchanged |
| Fixer.SelectIsSubsequence | agents/fixer.py:48-62 | the result is an order-preserving subsequence of the extracted bullets |
| Fixer.SelectComesFromPassingLines | agents/fixer.py:48-60 | every returned string is the cleaned form of a bullet line of the reply and mentions a keyword |
| Fixer.SelectMentionsPromptRun | agents/fixer.py:49-60 | every returned string is trimmed, has at least four characters, and contains (lower-cased) a lower-cased maximal letter run of the prompt |
| Fixer.NoLongWordNoKeywords | agents/fixer.py:56 | a prompt without four consecutive ASCII letters has no keywords |
| Fixer.NoLongWordNoBullets | agents/fixer.py:56-62 | a prompt without four consecutive ASCII letters gets `[]` whatever the reply |
| Lists.ComprehensionAppend | agents/fixer.py:48-52 | a comprehension over concatenated lists is the concatenation of the two comprehensions |
| Lists.ComprehensionNone | agents/fixer.py:57-60 | a comprehension that keeps no element yields `[]` |
| Lists.ComprehensionFirst | agents/fixer.py:57-60 | when element `i` is the first kept one, its image opens the result, followed by the comprehension of what comes after it |
| Lists.ComprehensionFirstTwo | agents/fixer.py:57-62 | when elements `i < j` are the first two kept ones, the result has at least two elements and starts with their images in order |
| Lists.ComprehensionOnlyOne | agents/fixer.py:57-60 | when exactly one element is kept, the result is its image alone |
| Lists.ComprehensionLength | agents/fixer.py:57-60 | the result has one element per kept element, counted by an independent recursion |
| Lists.ComprehensionMember | agents/fixer.py:57-60 | every element of the result is the image of some kept element |
| Lists.ComprehensionFuse | agents/fixer.py:48-60 | a comprehension over a comprehension equals one comprehension with the tests and maps composed |
| Lists.FilterIsSubsequence | agents/fixer.py:57-60 | a comprehension that only filters keeps an order-preserving subsequence |
| Lists.PrefixIsSubsequence | agents/fixer.py:62 | a prefix of a subsequence is a subsequence, so the cut to two keeps that property |
| Config.GetLlmConfig | config.py:11-66 | `get_llm_config` returns one endpoint with the default temperature and timeout, and its API key is never empty |
| Config.LoadDefaults | config.py:7-9 | the default base URL is `OLLAMA_BASE_URL` whenever that variable is present, even when empty, and `http://localhost:11434/v1` only when it is absent; temperature and timeout pass through |
| Config.EmptyBaseUrlIsKept | config.py:54-66 | a present but empty `OLLAMA_BASE_URL`, which would count as unset for a key, gives the local endpoint an empty base URL instead of the fallback |
| Config.FirstKeyed | config.py:12-52 | the reference choice is local Ollama or a listed provider whose key is set |
| Config.GetLlmConfigFollowsPriority | config.py:11-66 | `get_llm_config` equals the endpoint of the first provider in the order Groq, OpenAI, Anthropic whose key is set, else local Ollama |
| Config.GetLlmConfigDecisionTable | config.py:12-66 | each provider is chosen exactly when its key is set and no earlier key is set, and it gets that key |
| Config.GroqKeyWins | config.py:12-24 | a set Groq key selects `llama3-70b-8192` on the Groq URL whatever else is set |
| Config.NoKeyMeansLocalOllama | config.py:54-66 | with no hosted key set, the endpoint is `llama2` with key `ollama` at the default base URL, price zero |
| Config.UpdateConfigForModel | config.py:68-108 | every switch result has one endpoint with the default temperature and timeout, and a non-empty key |
| Config.SelectGpt4 | config.py:69-81 | a selection starting with `GPT-4` and a set OpenAI key gets `gpt-4`, even when a Groq key would win in `get_llm_config` |
| Config.SelectClaude | config.py:82-94 | a selection starting with `Claude` and a set Anthropic key gets `claude-3-opus-20240229` |
| Config.SelectOtherOllama | config.py:95-107 | `Other Ollama Model` gets local `llama2` whatever keys are set |
| Config.SelectFallsBack | config.py:108 | any other selection, and a provider prefix whose key is unset, falls back to `get_llm_config` |
| Config.SupportedModelsTable | config.py:110-115 | what each of the four supported model names selects |
| Config.SelectionUsesSetKey | config.py:68-108 | a switch never picks a hosted provider whose key is unset, and passes that provider its key |
| Pipeline.ChoosePrompt | main.py:52-55 | the prompt used is always one of the improved prompts or the original prompt |
| Pipeline.OverrideHonoured | main.py:52-53 | a non-empty override that is one of the improved prompts is used |
| Pipeline.DefaultChoice | main.py:54-55 | without a usable override, the first improved prompt is used, or the original when there is none |
| Pipeline.OverrideOutsideIgnored | main.py:52-55 | an override that is not an improved prompt gives the same choice as no override |
| Pipeline.NormaliseAnswer | main.py:61-62 | Answer B is trimmed, and reading it fails exactly when the generator returned `None` |
| Pipeline.AnswerFromReply | main.py:61-62 | Answer B is the stripped reply string or stripped `content`; a missing or `None` content gives `""` |
| Pipeline.Comparison | main.py:65-69 | at most 10 characters of Answer B give the fixed skip message; otherwise the result is a trimmed comparator verdict |
| Pipeline.Evaluate | main.py:29-80 | a failing fixer makes the whole run fail with its error; a successful run keeps the prompt and Answer A, uses an improved prompt or the original, and has a trimmed Answer B |
| Pipeline.EvaluateRecord | main.py:45-80 | the run fails exactly when the fixer raises (agents/fixer.py:46, 50) or the generator returns `None`; otherwise the record holds the unstripped inputs, the stripped critic text, the fixer output unchanged, the prompt used and Answer B |
| Pipeline.GeneratorSeesOnlyChosenPrompt | main.py:58-60 | the generator is consulted only on one user turn holding the chosen prompt |
| Pipeline.ComparatorRule | main.py:65-69 | the comparison is the stripped comparator verdict when Answer B has more than 10 characters, else the fixed skip message |
| Pipeline.ComparatorSkipped | main.py:65-69 | with Answer B of 10 characters or fewer, replacing the comparator changes nothing |
| Pipeline.ChosenPromptWithModelledFixer | main.py:49-55 | with this model's fixer, at most two prompts are offered, and the prompt used is the original or a trimmed bullet holding a keyword of it |
| Pipeline.PromptEvaluator.constructor | main.py:12-26 | the evaluator takes `get_llm_config`'s result and shares it with four new agents with their names |
| Pipeline.PromptEvaluator.UpdateLlmConfig | main.py:83-86 | afterwards the evaluator and all four agents hold `cfg`; agent identities and names are unchanged |

## Left out

- Everything behind `generate_reply` is out of scope: the agent framework and the HTTP calls to the hosted model. Replies are inputs: the fixer's reply is the reply value, and the four agents of `evaluate_prompt_response` are function parameters.
- `CriticAgent.evaluate` and `ComparatorAgent.compare` are opaque functions returning a string. Their request text and their own reply unwrapping are not modelled, including a `None` content that would fail at `.strip()` in main.py.
- Pipeline.PromptEvaluator.UpdateLlmConfig: configurations are values here, so dict aliasing between the evaluator and its agents is not modelled. Whether the agent framework rebuilds its client when `llm_config` is reassigned is library behaviour, not part of this model.
- The agents' system prompts are not modelled.
- `load_dotenv`, and the `float`/`int` parsing of `TEMPERATURE` and `TIMEOUT`, are I/O and floating point. Parsed values are parameters of `LoadDefaults`.
- `str.lower` is ASCII-only here. Python lower-cases all of Unicode, so a non-ASCII bullet character can lower-case into an ASCII letter in Python (the Kelvin sign becomes `k`) but not in this model. Keywords are ASCII, so only such bullet characters are affected.
- Text.SplitLinesOfTerminated: states the round trip for `\n`-terminated lines only, not for the other terminators `splitlines` accepts.
- app.py (the Streamlit UI, session state, the blank-input check and the JSON download) is not part of this model.
- debug_llm.py and runner.py are demo scripts and are not part of this model. Their bullet handling differs from agents/fixer.py. debug_llm.py has no keyword filter and aborts on fewer than two bullets. runner.py indexes the first improved prompt without a guard.
- The evaluation record is a datatype with the seven fields of the dict; its key strings and JSON form are not modelled.
