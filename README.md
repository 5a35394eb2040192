# System template hook, modelled in Dafny

This project models `SystemTemplateHook`, the agent hook that replaces an
agent's system prompt template with an instance-specific one. At `on_init` it
looks for `<instance_templates_dir>/<instance_id>.yaml`, searches the parsed
document along four fixed key-paths, and, when one of them ends at a string
with non-whitespace content, writes that string (stripped) into
`agent.templates.system_template` and raises its `template_loaded` flag. At
`on_model_query` it reports the override on the first query of a run.

Modules, one concept each:

- `PyText` (`pytext.dfy`): Python's `str.isspace` on one character and
  `str.strip()`, with `Strip` characterised against an independent
  "padding around a stripped string" description.
- `Config` (`config.dfy`): the YAML value tree (`Map | Str | Other`) and the
  step-by-step lookup `current = current[key]`, where a `KeyError` or
  `TypeError` becomes `None`.
- `Extraction` (`extraction.dfy`): the four key-paths, the specification
  function `FirstMatch`, the nested-loop method `ExtractSystemTemplate` proved
  equal to it, and the precedence, fail-soft and result-shape lemmas.
- `TemplateHook` (`hook.dfy`): the hook, the agent and its `templates` object
  as classes; `OnInit` tied to the pure transition `Step`; `Replay` over a
  sequence of `on_init` calls and the flag lemmas; `OnModelQuery`.
- `Wrappers` (`wrappers.dfy`): `Option`.

The file system and the YAML parser are inputs: `LoadOutcome` is
`Absent` (the file does not exist), `LoadError` (opening or parsing raised;
the source catches and logs it) or `Parsed(document)`. An empty YAML file
parses to `None`, which is `Parsed(Other)`.

`on_init` does not consult `template_loaded`, so every successful call writes
the holder again (system_template_hook.py:57-62); `ReplaySameFile` shows that
repeating the call with the same file leaves the same state as one call.

## Model

| member | source | states |
|---|---|---|
| `PyText.Strip` | sweagent/agent/hooks/system_template_hook.py:95-97 | `strip()` is "" exactly for a whitespace-only string; otherwise it starts and ends with non-whitespace, is a prefix of the string without its leading whitespace, and what it drops at the end is whitespace |
| `PyText.StripPadded` | sweagent/agent/hooks/system_template_hook.py:97 | whitespace around a string with non-whitespace ends is exactly what `strip()` removes |
| `PyText.StripIdempotent` | sweagent/agent/hooks/system_template_hook.py:97 | stripping a stripped string changes nothing |
| `PyText.StrippedIffFixed` | sweagent/agent/hooks/system_template_hook.py:95-97 | a string is non-empty with non-whitespace ends exactly when it is non-empty and its own strip |
| `Config.Lookup` | sweagent/agent/hooks/system_template_hook.py:91-99 | descends one key at a time from the document; a missing key or a non-mapping ends the path with `None`, the caught `KeyError`/`TypeError` |
| `Config.LookupMissIff` | sweagent/agent/hooks/system_template_hook.py:91-99 | a path lookup fails exactly when some step meets a non-mapping or a mapping without the next key |
| `Config.LookupNest` | sweagent/agent/hooks/system_template_hook.py:93-94 | looking up the path a value was nested under finds that value |
| `Extraction.SystemTemplatePaths` | sweagent/agent/hooks/system_template_hook.py:83-88 | the four candidate key-paths in precedence order: `agent.templates.system_template`, `templates.system_template`, `system_template`, `agent.system_template` |
| `Extraction.Candidate` | sweagent/agent/hooks/system_template_hook.py:91-99 | a path is a miss exactly when its lookup fails, ends at a non-string, or ends at a whitespace-only string; a hit is non-empty with non-whitespace ends |
| `Extraction.CandidateValue` | sweagent/agent/hooks/system_template_hook.py:93-97 | a hit is exactly the string the lookup reached, stripped |
| `Extraction.FirstMatch` | sweagent/agent/hooks/system_template_hook.py:90-102 | the search result is "" or a non-empty string with no whitespace at either end |
| `Extraction.FirstMatchEmptyIff` | sweagent/agent/hooks/system_template_hook.py:90-102 | the result is "" exactly when every path misses |
| `Extraction.ExtractSystemTemplate` | sweagent/agent/hooks/system_template_hook.py:73-102 | the nested loops with early return compute exactly the first-match search over the four paths in order |
| `Extraction.FirstMatchWins` | sweagent/agent/hooks/system_template_hook.py:83-97 | a path with a hit, preceded only by misses, decides the result |
| `Extraction.FirstMatchIndex` | sweagent/agent/hooks/system_template_hook.py:90-97 | a non-empty result is the hit of some path all of whose predecessors missed |
| `Extraction.MissesSkipped` | sweagent/agent/hooks/system_template_hook.py:90-99 | leading misses are skipped: the result is that of the remaining paths |
| `Extraction.LaterPathsIgnored` | sweagent/agent/hooks/system_template_hook.py:95-97 | once a path hits, replacing every later path by anything leaves the result unchanged |
| `Extraction.FirstMatchCongruent` | sweagent/agent/hooks/system_template_hook.py:90-99 | documents on which every path yields the same candidate extract the same result |
| `Extraction.NonMappingYieldsNothing` | sweagent/agent/hooks/system_template_hook.py:98-102 | a document that is null, a string, a list or a scalar yields "" |
| `Extraction.OtherKeysIgnored` | sweagent/agent/hooks/system_template_hook.py:83-88 | adding a top-level key other than `agent`, `templates`, `system_template` does not change the result |
| `Extraction.EmbedRoundTrip` | sweagent/agent/hooks/system_template_hook.py:83-97 | a document holding a string at any one of the four paths, and nothing else, extracts that string stripped |
| `Extraction.ReExtractStable` | sweagent/agent/hooks/system_template_hook.py:95-97 | a new document holding only the extracted template, at any recognised path, extracts it again unchanged |
| `Extraction.ResultShape` | sweagent/agent/hooks/system_template_hook.py:95-102 | the result is "" or a non-empty string equal to its own strip |
| `Extraction.ExampleTemplatesLayout` | sweagent/agent/hooks/system_template_hook.py:85 | `templates: {system_template: "You are a careful reviewer."}` extracts that sentence |
| `Extraction.NestedLayoutBeatsFlat` | sweagent/agent/hooks/system_template_hook.py:84-86 | with both `agent.templates.system_template` and top-level `system_template` present, the first wins, whatever the second holds |
| `Extraction.FirstPathDecides` | sweagent/agent/hooks/system_template_hook.py:84-97 | a usable string at `agent.templates.system_template` is the result, whatever the rest of the document holds |
| `Extraction.PathDecides` | sweagent/agent/hooks/system_template_hook.py:90-97 | a usable string at any recognised path whose predecessors all miss is the result, trimmed, whatever the rest of the document holds |
| `TemplateHook.Override` | sweagent/agent/hooks/system_template_hook.py:44-68 | `on_init` writes something exactly when the file parsed, extraction is non-empty and the agent has the holder; what it writes is the extracted, stripped template |
| `TemplateHook.Step` | sweagent/agent/hooks/system_template_hook.py:57-62 | one `on_init` either leaves flag and template untouched, or sets the template to the extracted string and the flag to true, and only when the agent has the holder |
| `TemplateHook.Agent.HasHolder` | sweagent/agent/hooks/system_template_hook.py:59 | the agent has a `templates` object and that object has a `system_template` attribute |
| `TemplateHook.NoOverrideNoChange` | sweagent/agent/hooks/system_template_hook.py:44-71 | file absent, load or parse error, nothing extracted, or no holder: flag and template unchanged |
| `TemplateHook.SuccessfulOverride` | sweagent/agent/hooks/system_template_hook.py:57-62 | on success the template becomes exactly the extracted string and the flag becomes true |
| `TemplateHook.StepIdempotent` | sweagent/agent/hooks/system_template_hook.py:59-62 | running `on_init` again with the same file changes nothing more |
| `TemplateHook.ReplaySameFile` | sweagent/agent/hooks/system_template_hook.py:36-71 | any number of `on_init` calls with the same file end in the state of the first |
| `TemplateHook.FlagOnlyRises` | sweagent/agent/hooks/system_template_hook.py:61-62 | once `template_loaded` is true, no later `on_init` resets it |
| `TemplateHook.FlagIffSomeOverride` | sweagent/agent/hooks/system_template_hook.py:34-62 | starting from false, the flag is true after a run of `on_init` calls exactly when one of them applied an override |
| `TemplateHook.ReplayKeepsInvariant` | sweagent/agent/hooks/system_template_hook.py:57-62 | whenever the flag is true the agent's template is a non-empty string with no whitespace at either end |
| `TemplateHook.SystemTemplateHook.constructor` | sweagent/agent/hooks/system_template_hook.py:24-34 | stores the instance id and directory and starts with `template_loaded` false |
| `TemplateHook.SystemTemplateHook.OnInit` | sweagent/agent/hooks/system_template_hook.py:36-71 | flag and agent template after the call are `Step` of those before it; nothing else on the agent changes; once the file is found to exist, nothing is raised |
| `TemplateHook.SystemTemplateHook.OnModelQuery` | sweagent/agent/hooks/system_template_hook.py:113-114 | signals exactly when `template_loaded` holds and there is exactly one message; changes no state |

## Left out

- File system and YAML: building the file path, `exists()`, `open` and `yaml.safe_load` are I/O and a foreign parser; their result is the `LoadOutcome` input.
- `TemplateHook.SystemTemplateHook.OnInit`: the existence check (`template_file.exists()`) runs outside the `try`, so an `OSError` other than "not found" from it (a permission error on the directory, say) escapes `on_init` in the source; `LoadOutcome` has no case for it, and the model does not capture that escape.
- Logging: `get_logger` and every `logger.*` call are an observability side channel; only the `on_model_query` condition is modelled, as a returned boolean.
- `AbstractAgentHook` and the host runtime that invokes the callbacks are not part of this model.
- `hasattr` probing and exception handling are an explicit capability (`Agent.HasHolder`) and `None` results; the catch-all `except Exception` is the `LoadError` outcome; with the holder a plain string field, nothing after the parse can raise except the `len` case on the debug line, listed below.
- The debug line that measures `len(original_template)` after the write: the holder is a string, so that call cannot fail here; a non-sized original would make the source raise after writing, and the write would be kept.
- YAML mapping entries under non-string keys, which no string key can reach, and `str` subclasses, which `yaml.safe_load` does not produce.
- `OnModelQuery`: the `instance_id` argument and extra keyword arguments are accepted and ignored, as in the source.
- Concurrent invocation of the callbacks, which the source does not guard against.
