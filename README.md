# Target projections of the canonical skills, agents and hooks

The build turns one canonical source tree (`skills/`, `agents/`,
`commands/` and a hook configuration) into per-tool layouts. This project
models two of those targets and the version stamp they share.

- **remote** (`build/targets/remote.js`). This is the layout that Cursor-style
  tools fetch from the repository root.
  - The build empties and recreates `skills/`, `agents/` and `commands/`.
  - Each skill is copied with a merged `SKILL.md` header and its `references`,
    `scripts` and `assets` directories.
  - Each agent is rewritten with a defaults < source identity < sidecar header.
  - Each command is copied unchanged.
  - Finally `hooks.json` is written. It translates the `pre-tool`, `post-tool`
    and `session` hook lists into Cursor's schema: a `version` of 1 and one
    list of `{command, timeout, matcher?}` entries per event key.
- **gemini** (`build/targets/gemini.js`). This target produces skills only.
  - It empties and recreates `skills/`.
  - Skills are copied without `assets`.
  - Every `SKILL.md` header is the base header under the `SKILL.gemini.yaml`
    sidecar, then stamped with the package version.
- **injectVersion** (`build/lib/version.js`): `{...frontmatter, version}`.

## How the model is built

- **The source tree** is an immutable value. A node is either a file with its
  text or a directory with named children.
- **The output root** is the class `FileTree.OutputDir`. Its `entries` map is
  replaced in place.
  - `Recreate` stands for `rmSync` plus `mkdirSync`.
  - `PutChild` and `WriteFile` stand for `writeFileSync` and `cpSync`.
- **Each target's `build`** is a method on that object. It is proved equal to a
  function of the source (`RemoteTarget.RemoteOutput`,
  `GeminiTarget.GeminiOutput`).
- **Every directory copy loop** is a single method, `FileTree.FillDir`. It has
  a loop and invariants, and is proved to leave exactly the listed successes in
  the directory.
- **The hook builder** `Hooks.GenerateHooksJson` keeps the source's loop.
  - The loop pushes session entries into groups it creates on demand.
  - It is proved equal to the declarative `Hooks.HooksJsonOf`, which groups the
    session hooks by filtering them on their mapped key.
  - The key-order list of the model is the insertion order of the JavaScript
    object. `JSON.stringify` writes keys in that order, except integer-like
    keys, which JavaScript lists first (see "## Left out").
- **The throws the model covers** are each an `Err` of `FileTree.BuildError`:
  - a directory read as a file, including a directory named `hooks.json`;
  - a file listed as a directory;
  - an unparsable header or sidecar;
  - a session hook without an event (`undefined.toLowerCase()`).
  The throws it does not cover are listed under "## Left out".
- **The libraries the scripts call** are fields of `FileTree.Externals`: gray-matter's
  parse and stringify, the YAML parser, and `loadSkillFrontmatter`.
  - The remote build also takes `JSON.stringify` as a parameter.
  - The gemini build takes the package version as a parameter.
- **Object spread** `{...a, ...b}` is the right-biased map union `a + b`.
- **Truthiness** follows JavaScript: `null`, `false`, `0` and `""` are falsy,
  and every list and object is truthy.

## Model

| member | source | states |
|---|---|---|
| Values.Get | build/targets/remote.js:196-198 | reading a header key gives the value exactly when the key is present |
| Values.Or | build/targets/remote.js:196-199 | `a \|\| fallback`: the value when it is present and truthy, the fallback otherwise |
| Text.ToLower | build/targets/remote.js:314 | ASCII `toLowerCase`: same length, no upper-case letter left, each upper-case letter replaced by the letter 32 code points above it, every other character kept |
| Text.ToLowerIdempotent | build/targets/remote.js:314 | lower-casing a lower-cased event name changes nothing |
| Text.Split | build/targets/remote.js:321 | `split("/")` gives at least one piece and no piece holds a `/` |
| Text.JoinSplit | build/targets/remote.js:321-326 | joining the pieces of a split with the same separator gives the script path back |
| Text.JoinAppend | build/targets/remote.js:326 | joining two runs of pieces puts exactly one separator between them |
| Text.LastTwoSegmentsSuffix | build/targets/remote.js:326 | `parts.slice(-2).join("/")` is a suffix of the path; it is the whole path when the path has at most one `/`, and otherwise holds exactly one `/` and is preceded by a `/` |
| Text.LastSegmentEndsWith | build/targets/remote.js:321-327 | the last piece ends in `.py` or `.ts` exactly when the whole script path does |
| Text.IndexOf | build/targets/remote.js:180 | the position `replace` acts on: an occurrence of the pattern with none before it, or no occurrence at all |
| Text.ReplaceFirst | build/targets/remote.js:180 | `replace` with a string pattern leaves the text unchanged when the pattern does not occur, and otherwise changes its length by the length difference of replacement and pattern |
| Text.ReplaceFirstSpec | build/targets/remote.js:180 | `replace` with a string pattern replaces the first occurrence and only it |
| Text.Basename | build/targets/remote.js:214 | `basename(p, ".md")` removes a trailing `.md` unless that would leave nothing, and otherwise keeps the name |
| Merge.Overlay | build/targets/remote.js:115 | `{...base, ...top}`: the keys of both, the top's value wherever it has the key, the base's elsewhere |
| Merge.MergeLayers | build/targets/remote.js:194-201 | a chain of spreads holds every key of every layer, and the last layer wins each of its keys |
| Merge.MergeLayersThree | build/targets/remote.js:194-201 | a spread of three objects is two successive spreads |
| Merge.LastDefining | build/targets/remote.js:194-201 | the latest layer of a spread that defines a key, or none |
| Merge.MergeLayersPrecedence | build/targets/remote.js:194-201 | a key is in a chain of spreads iff some layer defines it, with the value of the latest such layer |
| Merge.MergeThreePrecedence | build/targets/remote.js:194-201 | in a defaults, source, override spread the override wins, then the source, then the defaults |
| Version.InjectVersion | build/lib/version.js:30-32 | the result maps `version` to the given version, has the input's keys plus `version`, and keeps every other value |
| Version.InjectVersionTwice | build/lib/version.js:31 | stamping v1 then v2 is stamping v2; stamping the same version twice is stamping once |
| Version.InjectVersionStamped | build/lib/version.js:31 | a header that already carries the version is left equal to itself |
| FileTree.OutputDir.Recreate | build/targets/remote.js:73-78 | after removing and making the directory it exists and is empty; nothing else changes |
| FileTree.OutputDir.PutChild | build/targets/remote.js:125 | writing one entry of an output directory changes that entry alone |
| FileTree.OutputDir.WriteFile | build/targets/remote.js:299-302 | `writeFileSync` fails on a directory of that name and then changes nothing; otherwise it puts the file at that name and changes nothing else |
| FileTree.Successes | build/targets/remote.js:107-148 | the written entries are the successful ones, all of them when every entry succeeds |
| FileTree.FillDir | build/targets/remote.js:107-148 | the per-entry loop succeeds iff every entry does; the directory then holds exactly the listed entries; a failure is some entry's failure; no other output entry changes |
| Sidecar.LoadSidecar | build/targets/remote.js:154-163 | a missing sidecar or one whose YAML is null gives `{}`, a mapping gives itself, a parse error or a directory stops the build |
| Sidecar.SkillSidecarName | build/targets/remote.js:155 | the skill sidecar is `SKILL.` followed by the target and `.yaml`, the target read back from the name |
| Sidecar.AgentSidecarName | build/targets/remote.js:212-215 | the agent sidecar is the agent file's stem without `.md`, a dot, the target and `.yaml`, each part read back from the name |
| Sidecar.SidecarNamesAreNotMarkdown | build/targets/remote.js:175 | `SKILL.<t>.yaml` and `<base>.<t>.yaml` never end in `.md`, so the agent listing never picks up a sidecar |
| Sidecar.SkillSidecarNamesDistinct | build/targets/remote.js:155 | distinct targets read distinct `SKILL.<target>.yaml` files |
| Sidecar.AgentSidecarNamesDistinct | build/targets/remote.js:212-215 | distinct targets read distinct `<base>.<target>.yaml` files |
| Skills.SkillFrontmatter | build/targets/remote.js:115 | a skill header has the keys of base and sidecar, plus `version` when the target stamps one; the stamp is the given version, and an unstamped header takes every sidecar value |
| Skills.SkillFrontmatterPrecedence | build/targets/gemini.js:72-81 | a skill header has the base's and sidecar's keys (plus `version` when stamped); the stamp beats everything, the sidecar beats the base |
| Skills.SkillOutput | build/targets/remote.js:107-147 | a skill output holds `SKILL.md` iff the source does, with the source body under the merged header, plus verbatim copies of the side directories present and nothing else; it fails only on a bad sidecar or `SKILL.md` |
| Skills.SkillResults | build/targets/remote.js:96-105 | the skills are the directories under `skills/`; no `skills/` gives none; a file in its place cannot be listed |
| Skills.ListedSkill | build/targets/remote.js:103-114 | every listed skill is a source directory under `skills/` and its output is built from that directory |
| Skills.BuiltSkillShape | build/targets/remote.js:118-147 | a built skill holds `SKILL.md` iff the source has one, each side directory iff the source has it and unchanged, and nothing else |
| Skills.CopySkills | build/targets/remote.js:96-149 | filling `skills/` succeeds iff listing and every skill succeed, and it then holds exactly the built skills; no other output entry changes |
| Agents.AgentNameAsWritten | build/targets/remote.js:180 | `file.replace(".md", "")` is the file name minus three characters when the name ends in `.md`, and the file name itself when `.md` does not occur |
| Agents.AgentName | build/targets/remote.js:214 | the agent name is the file name without its `.md` extension |
| Agents.AgentNameAsWrittenStripsFirstMatch | build/targets/remote.js:180 | on `a.mdx.md` the script's `replace(".md", "")` gives `ax.md`, while the sidecar stem is `a.mdx` |
| Agents.AgentNameAgrees | build/targets/remote.js:180 | when `.md` occurs only as the extension, `replace` and `basename` give the same name, the sidecar's stem |
| Agents.AgentFrontmatter | build/targets/remote.js:194-201 | an agent header holds `model`, `is_background`, `name`, `description` and the sidecar's keys, and the sidecar wins each of its keys |
| Agents.AgentFrontmatterSpec | build/targets/remote.js:190-201 | an agent header has `model`, `is_background`, `name`, `description` and the sidecar's keys; the sidecar wins; `model` is `inherit`; only `pm` has `is_background` false; name and description come from the source when truthy, else fall back; no other source key survives |
| Agents.AgentOutput | build/targets/remote.js:177-206 | an agent file is rewritten as its body under the merged header; it fails iff it is a directory, its header does not parse, or its sidecar fails |
| Agents.AgentOutputAsWritten | build/targets/remote.js:177-205 | when `.md` occurs only as the extension, the agent is rewritten under a header built from the script's own `replace` name |
| Agents.MarkdownEntries | build/targets/remote.js:175 | the entries listed are exactly the names ending in `.md` |
| Agents.AgentResults | build/targets/remote.js:168-175 | the agents are the `.md` entries of `agents/`; no `agents/` gives none; a file in its place cannot be listed |
| Agents.CopyAgents | build/targets/remote.js:168-207 | filling `agents/` succeeds iff every agent does, and it then holds exactly the rewritten agents; nothing else changes |
| Agents.CommandOutput | build/targets/remote.js:237-241 | a command is copied unchanged; a directory cannot be copied without `recursive` |
| Agents.CommandResults | build/targets/remote.js:228-235 | the commands are the `.md` entries of `commands/`; none without `commands/`; a file in its place cannot be listed |
| Agents.CopyCommands | build/targets/remote.js:228-242 | filling `commands/` succeeds iff every command does, and it then holds exactly the copies; nothing else changes |
| Hooks.TimeoutSeconds | build/targets/remote.js:273 | an absent or zero timeout gives 60; otherwise the result in seconds is rounded down, `s*1000 <= ms < s*1000+1000` |
| Hooks.TimeoutSecondsExamples | build/targets/remote.js:273 | 45000 gives 45, absent or 0 give 60, 1999 gives 1, -1500 gives -2 |
| Hooks.Matcher | build/targets/remote.js:274 | a matcher is present iff the hook's matcher is truthy, and it is then `{tool_name: matcher}` |
| Hooks.MapSessionEvent | build/targets/remote.js:308-315 | a table event gets its Cursor name; any other event gets a key that is no table name; no event maps to `preToolUse` or `postToolUse` |
| Hooks.MapSessionEventCases | build/targets/remote.js:308-315 | the three table events map to `sessionStart`, `sessionEnd` and `preCompact`; any other event maps to its lower-case form |
| Hooks.UnknownEventLowerCased | build/targets/remote.js:314 | `CustomEvent` maps to `customevent` |
| Hooks.HookCommand | build/targets/remote.js:320-332 | the command is the interpreter prefix chosen by the script path followed by the last two segments of the path |
| Hooks.HookCommandSpec | build/targets/remote.js:320-332 | the command is `python3 hooks/`, `bun run hooks/` or `bash hooks/` as the script ends in `.py`, `.ts` or neither, followed by its longest suffix holding at most one `/`: the whole script when it has at most one `/` |
| Hooks.InterpreterOfScript | build/targets/remote.js:321-325 | choosing the interpreter by the last path segment is choosing it by the whole script path |
| Hooks.PreToolEntries | build/targets/remote.js:271-275 | one pre-tool entry per hook, in order |
| Hooks.PostToolEntries | build/targets/remote.js:280-284 | one post-tool entry per hook, in order |
| Hooks.SessionEntries | build/targets/remote.js:293-296 | one session entry per hook, in order |
| Hooks.FirstMissingEvent | build/targets/remote.js:288-289 | the translation fails at the first session hook without an event, and succeeds iff every hook has one |
| Hooks.FirstMissingEventAt | build/targets/remote.js:288-289 | the hook where the loop stops is that first hook without an event |
| Hooks.SessionFilterAbsent | build/targets/remote.js:288-297 | no hook is grouped under a key that no hook maps to |
| Hooks.SessionFilterStep | build/targets/remote.js:293 | one more hook extends only the group of its own key |
| Hooks.SessionKeysStep | build/targets/remote.js:290-292 | one more hook adds its key at the end of the key order unless the key is already there |
| Hooks.SessionStep | build/targets/remote.js:290-296 | one more hook appends its entry to its key's group and creates the group when missing |
| Hooks.PushStep | build/targets/remote.js:289-296 | one loop iteration keeps the object equal to the translation of one more hook |
| Hooks.HooksJsonOf | build/targets/remote.js:259-297 | the translation fails exactly when a session hook lacks an event, naming the first one; otherwise it has version 1 and its key order lists exactly the keys of its groups |
| Hooks.GenerateHooksJson | build/targets/remote.js:259-297 | the object the builder produces equals the declarative translation: tool groups first, then session groups by first appearance, each in configuration order |
| HookProperties.EmptyConfig | build/targets/remote.js:260-267 | absent or empty lists give `{version: 1, hooks: {}}` |
| HookProperties.SessionKeysAreNotToolKeys | build/targets/remote.js:288-297 | no session group lands under `preToolUse` or `postToolUse` |
| HookProperties.SessionKeysDistinct | build/targets/remote.js:290-292 | each session key is created once |
| HookProperties.ToolKeysPresent | build/targets/remote.js:264-285 | `version` is 1; `preToolUse` exists iff the pre-tool list is non-empty (likewise `postToolUse`), holding that list's entries |
| HookProperties.KeysNameGroups | build/targets/remote.js:264-297 | the written key order lists every group exactly once and nothing else |
| HookProperties.PreToolEntryFields | build/targets/remote.js:270-276 | the i-th pre-tool entry has the i-th hook's command and timeout in seconds, and a matcher iff the hook's matcher is truthy |
| HookProperties.PostToolEntryFields | build/targets/remote.js:279-285 | the i-th post-tool entry has the i-th hook's command, a timeout of 30 whatever the hook says, and a matcher iff the hook's matcher is truthy |
| HookProperties.SessionEntriesHaveNoMatcher | build/targets/remote.js:293-296 | no entry of a session group carries a matcher |
| HookProperties.OccurrencesOfDistinct | build/targets/remote.js:290-292 | a key of the session key order occurs in it once |
| HookProperties.FilterTotalStep | build/targets/remote.js:293 | one more hook adds one to the count of its own key |
| HookProperties.SessionTotal | build/targets/remote.js:288-297 | every session hook is grouped once, under its own key |
| HookProperties.EntryTotalAppend | build/targets/remote.js:264-297 | the entry count of two runs of keys is the sum of their counts |
| HookProperties.SessionEntryTotal | build/targets/remote.js:288-297 | under the session keys the object holds exactly the session groups |
| HookProperties.ToolTotal | build/targets/remote.js:270-285 | the tool groups hold `\|pre\| + \|post\|` entries |
| HookProperties.EntryCount | build/targets/remote.js:259-297 | every configured hook becomes exactly one entry: `\|pre\| + \|post\| + \|session\|` in all |
| HookProperties.FilterHolds | build/targets/remote.js:289-293 | each session hook is in the group of its own key, and that key is created |
| HookProperties.SessionHookInItsGroup | build/targets/remote.js:288-297 | each session hook's entry is in the group of its mapped event |
| RemoteTarget.Cleaned | build/targets/remote.js:73-78 | after the clean step the three directories exist and are empty; other entries are unchanged |
| RemoteTarget.Clean | build/targets/remote.js:72-78 | the clean loop empties each directory in turn |
| RemoteTarget.CleanedRoot | build/targets/remote.js:72-78 | after cleaning, `skills/`, `agents/` and `commands/` are present and empty; nothing else changes |
| RemoteTarget.Install | build/targets/remote.js:59-91 | the four outputs are in place and every other entry is kept |
| RemoteTarget.InstallTwice | build/targets/remote.js:59-91 | putting the same outputs in place twice is doing it once |
| RemoteTarget.RemoteOutput | build/targets/remote.js:59-91 | the build has an output iff skills, agents, commands and hooks all succeed and `hooks.json` is not a directory; the output then holds the three directories built from the source, the rendered `hooks.json`, and every other entry unchanged |
| RemoteTarget.CleanedThenFilled | build/targets/remote.js:72-90 | emptying the three directories leaves no trace once all outputs are written |
| RemoteTarget.CopyStages | build/targets/remote.js:80-87 | the copies run in order and a failure stops the rest, so later directories stay empty |
| RemoteTarget.Build | build/targets/remote.js:59-91 | the build succeeds iff every step does, including writing `hooks.json`, and then leaves exactly the outputs the source determines; on failure the three directories still exist, later ones are empty, and other entries are kept |
| RemoteTarget.RebuildIsIdempotent | build/targets/remote.js:59-91 | building again over the output of a build changes nothing |
| RemoteTarget.NoStaleOutput | build/targets/remote.js:72-78 | the four outputs depend on the source and configuration only, never on the previous output root; success depends on it only through a directory named `hooks.json` |
| RemoteTarget.OutputComesFromSource | build/targets/remote.js:96-242 | every output skill is a source skill directory, every agent and command a source `.md` entry, and commands are copied unchanged |
| RemoteTarget.RemoteSkillShape | build/targets/remote.js:118-147 | a remote skill holds `SKILL.md` iff the source does, and `references`, `scripts` and `assets` iff present, unchanged |
| GeminiTarget.GeminiOutput | build/targets/gemini.js:37-50 | the build has an output iff every skill succeeds; the output then adds `skills/` holding the built skills and keeps every other entry |
| GeminiTarget.Build | build/targets/gemini.js:37-50 | the build succeeds iff every skill does, and then `skills/` holds exactly the built skills; in every case no other output entry changes (no agents, commands or hooks) |
| GeminiTarget.MissingSkillsDir | build/targets/gemini.js:58-60 | without a source `skills/` the build succeeds with an empty `skills/` |
| GeminiTarget.RebuildIsIdempotent | build/targets/gemini.js:37-50 | building again over the output of a build changes nothing |
| GeminiTarget.SkillsComeFromSource | build/targets/gemini.js:40-64 | the output skills are exactly the source skill directories, so no stale skill survives |
| GeminiTarget.GeminiSkillShape | build/targets/gemini.js:84-106 | a gemini skill holds `SKILL.md` iff the source does, `references` and `scripts` iff present and unchanged, and never `assets` |
| GeminiTarget.StampsVersion | build/targets/gemini.js:72-91 | the output header is base under `SKILL.gemini.yaml` with `version` set last to the package version, over the source body |
| GeminiTarget.BodyPreserved | build/targets/gemini.js:86-91 | if parsing undoes stringifying, the output `SKILL.md` parses to the source body under a header whose `version` is the package version |
| GeminiTarget.SameSkillsAsRemote | build/targets/gemini.js:62-64 | the gemini and remote targets enumerate the same skills |

## Left out

- File system calls are not modelled as I/O. `existsSync`, `rmSync`, `mkdirSync`, `cpSync`, `readdirSync`, `readFileSync` and `writeFileSync` act on an abstract tree. A recursive copy is one node copied whole.
- Directory listing order and the order of writes inside a directory are not modelled. Directory contents are maps, and `FileTree.FillDir` fills them in any order.
- The libraries gray-matter, `yaml` and `JSON.stringify` are parameters, so their formats and any indentation are not modelled.
- build/lib/sidecar.js is not part of this model. `loadSkillFrontmatter` is a parameter, taken to return a header and never to throw.
- `getVersion` reads `package.json`. It is left out and the version is a parameter of the gemini build.
- Key order inside frontmatter objects is not modelled; headers are maps. The order of the `hooks.json` keys is modelled.
- `toLowerCase` is modelled for ASCII letters only. Other characters are kept unchanged.
- Hooks.HookCommand: a hook whose `script` is absent or not a string throws at build/targets/remote.js:321; the model's hook always carries a script string.
- Hooks.MapSessionEvent: an `event` that is present but not a string (a number, say) throws in `toLowerCase`; the model's event is a string or absent, and absence is the `MissingEvent` error.
- Hooks.GenerateHooksJson: the key order is the order of insertion. `JSON.stringify` writes integer-like keys (an event named `1`, say) before all others, and that reordering is not modelled.
- Agents.AgentOutput: the header is built from `Agents.AgentName`, the name without its trailing `.md`, which is the corrected derivation of the finding below. The script's `replace` differs when `.md` occurs earlier in the name. For `a.mdx.md` the script names the agent `ax.md`. For a file named just `.md` the script gives the name `""`, the description ` agent for specialized tasks` and the sidecar `.md.remote.yaml`. `Agents.AgentOutputAsWritten` shows that the two agree whenever `.md` occurs only as the extension.
- Lookups that reach the object prototype are left out. An event named `toString` in the mapping table, or `constructor` in `hooksJson.hooks`, would give a function in JavaScript.
- The `config.hooks` object itself being absent is left out. It would throw before any list is read.
- A sidecar whose YAML is a scalar or a list is left out. The YAML result is an error, null or a mapping. In the script a falsy scalar gives `{}`, and a truthy one would be spread key by key.
- Hook timeouts are integers. A non-integer or non-numeric timeout, including `NaN`, is not modelled.
- The `async` signature of `build` is not modelled, nor its unused parameters (`targetConfig`, `targetsConfig`, `rootDir` in remote).
- The source and output roots are separate trees, so a `distDir` inside `srcDir` is not modelled.
- FileTree.FillDir: on failure the contract does not say which entries were already written. In the script that depends on the listing order.
- RemoteTarget.Build: on failure the contract states the output keys, the empty later directories and the untouched other entries, but not the partly filled failing directory.
- GeminiTarget.Build: on failure the contents of the partly filled `skills/` are not stated, for the same reason.

## Findings

| source | as written | input that shows it | evidently intended | confidence | as-written member | corrected member |
|---|---|---|---|---|---|---|
| build/targets/remote.js:180 | `file.replace(".md", "")` removes the first `.md` in the file name, not the extension | `a.mdx.md` is named `ax.md` (default `name` and description `ax.md agent for specialized tasks`), while its sidecar is looked up as `a.mdx.remote.yaml` (line 214) | strip the trailing `.md`, as `basename(file, ".md")` does for the sidecar | medium (not executed) | Agents.AgentNameAsWrittenStripsFirstMatch | Agents.AgentNameAgrees |
