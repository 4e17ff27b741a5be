/** The remote target's `hooks.json`: the canonical hook configuration, grouped
    by category, translated into Cursor's schema of event keys, each holding
    `{command, timeout, matcher?}` entries. */
module Hooks {

  import opened Values
  import opened Text
  import opened FileTree

  const SchemaVersion := 1
  const DefaultTimeoutMs := 60000
  const PostToolTimeoutSeconds := 30
  const PreToolKey := "preToolUse"
  const PostToolKey := "postToolUse"

  /** A canonical hook. `matcher`, `timeout` (milliseconds) and `event` (for
      session hooks) may be absent. */
  datatype Hook = Hook(script: string, matcher: Option<Value>, timeout: Option<int>, event: Option<string>)

  /** `config.hooks`: the `pre-tool`, `post-tool` and `session` lists, each
      possibly absent. */
  datatype HooksConfig = HooksConfig(preTool: Option<seq<Hook>>, postTool: Option<seq<Hook>>, session: Option<seq<Hook>>)

  /** A translated entry; `matcher` is `None` when the key is omitted. */
  datatype HookEntry = HookEntry(command: string, timeout: int, matcher: Option<Value>)

  /** The `hooks.json` object: `keys` lists the keys of `hooks` in the order
      they were inserted, which is the order they are written. */
  datatype HooksJson = HooksJson(version: int, keys: seq<string>, hooks: map<string, seq<HookEntry>>)

  /** `list || []`. */
  function OrEmpty(hs: Option<seq<Hook>>): seq<Hook> {
    if hs.Some? then hs.value else []
  }

  /** `Math.floor((ms || 60000) / 1000)`: an absent or zero timeout takes the
      default, and the division rounds down (also for negative values). */
  function TimeoutSeconds(ms: Option<int>): (s: int)
    ensures ms.None? || ms.value == 0 ==> s == DefaultTimeoutMs / 1000
    ensures ms.Some? && ms.value != 0 ==> s * 1000 <= ms.value < s * 1000 + 1000
  {
    // Dafny's `/` rounds down when the divisor is positive, like Math.floor.
    (if ms.Some? && ms.value != 0 then ms.value else DefaultTimeoutMs) / 1000
  }

  lemma TimeoutSecondsExamples()
    ensures TimeoutSeconds(Some(45000)) == 45
    ensures TimeoutSeconds(None) == 60 && TimeoutSeconds(Some(0)) == 60
    ensures TimeoutSeconds(Some(1999)) == 1
    ensures TimeoutSeconds(Some(-1500)) == -2
  {
  }

  /** `...(hook.matcher && {matcher: {tool_name: hook.matcher}})`: a truthy
      matcher is wrapped, anything else leaves the key out. */
  function Matcher(h: Hook): (m: Option<Value>)
    ensures m.Some? <==> h.matcher.Some? && Truthy(h.matcher.value)
    ensures m.Some? ==> m.value == Object(map["tool_name" := h.matcher.value])
  {
    if h.matcher.Some? && Truthy(h.matcher.value) then Some(Object(map["tool_name" := h.matcher.value]))
    else None
  }

  /** Canonical session event names with a Cursor name of their own. */
  const SessionEventTable: map<string, string> :=
    map["SessionStart" := "sessionStart", "SessionEnd" := "sessionEnd", "PreCompact" := "preCompact"]

  /** `mapping[event] || event.toLowerCase()`. A Cursor name of the table comes
      only from its own canonical event, and no session key is a tool key:
      the lower-cased fallback has no upper-case letter, while every table
      value and both tool keys have one. */
  function MapSessionEvent(event: string): (key: string)
    ensures event in SessionEventTable ==> key == SessionEventTable[event]
    ensures event !in SessionEventTable ==> key !in SessionEventTable.Values
    ensures key != PreToolKey && key != PostToolKey
  {
    if event in SessionEventTable then SessionEventTable[event]
    else
      SessionEventTableValues();
      assert IsUpper("sessionStart"[7]) && IsUpper("sessionEnd"[7]) && IsUpper("preCompact"[3]);
      assert IsUpper(PreToolKey[3]) && IsUpper(PostToolKey[4]);
      ToLower(event)
  }

  /** The Cursor names of the table. */
  lemma SessionEventTableValues()
    ensures SessionEventTable.Values == {"sessionStart", "sessionEnd", "preCompact"}
  {
    forall v | v in SessionEventTable.Values
      ensures v in {"sessionStart", "sessionEnd", "preCompact"}
    {
      var e :| e in SessionEventTable && SessionEventTable[e] == v;
    }
    assert SessionEventTable["SessionStart"] == "sessionStart";
    assert SessionEventTable["SessionEnd"] == "sessionEnd";
    assert SessionEventTable["PreCompact"] == "preCompact";
  }

  /** The three table entries and the lower-case fallback. */
  lemma MapSessionEventCases(event: string)
    ensures MapSessionEvent("SessionStart") == "sessionStart"
    ensures MapSessionEvent("SessionEnd") == "sessionEnd"
    ensures MapSessionEvent("PreCompact") == "preCompact"
    ensures event !in {"SessionStart", "SessionEnd", "PreCompact"} ==> MapSessionEvent(event) == ToLower(event)
  {
  }

  lemma UnknownEventLowerCased()
    ensures MapSessionEvent("CustomEvent") == "customevent"
  {
    assert "CustomEvent" !in SessionEventTable;
  }

  /** The command prefix for a script, chosen by the extension of its file
      name: python3 for `.py`, bun for `.ts`, bash for anything else. */
  function CommandPrefix(filename: string): string {
    if EndsWith(filename, ".py") then "python3 hooks/"
    else if EndsWith(filename, ".ts") then "bun run hooks/"
    else "bash hooks/"
  }

  /** `getHookCommand`: the interpreter, then the script's last two path
      segments under `hooks/`. Testing the last segment's extension is
      testing the script's. */
  function HookCommand(script: string): (cmd: string)
    ensures cmd == CommandPrefix(script) + LastTwoSegments(script, '/')
  {
    var parts := Split(script, '/');
    InterpreterOfScript(script);
    CommandPrefix(parts[|parts| - 1]) + LastTwoSegments(script, '/')
  }

  /** The command runs `.py` scripts with python3, `.ts` scripts with bun and
      everything else with bash, on a path that is the whole script when it
      has at most one `/`, and otherwise the suffix after its last-but-one
      `/`. */
  lemma HookCommandSpec(script: string)
    ensures var rel := LastTwoSegments(script, '/');
      && HookCommand(script) ==
           (if EndsWith(script, ".py") then "python3 hooks/"
            else if EndsWith(script, ".ts") then "bun run hooks/"
            else "bash hooks/") + rel
      && EndsWith(script, rel)
      && Count(rel, '/') == (if Count(script, '/') == 0 then 0 else 1)
      && (Count(script, '/') <= 1 ==> rel == script)
      && (Count(script, '/') >= 2 ==> |rel| < |script| && script[|script| - |rel| - 1] == '/')
  {
    LastTwoSegmentsSuffix(script, '/');
  }

  /** Testing the extension of the last segment is testing the script's. */
  lemma InterpreterOfScript(script: string)
    ensures var parts := Split(script, '/');
      CommandPrefix(parts[|parts| - 1]) == CommandPrefix(script)
  {
    var parts := Split(script, '/');
    LastSegmentEndsWith(script, '/', ".py");
    LastSegmentEndsWith(script, '/', ".ts");
    SameExtensionsSamePrefix(parts[|parts| - 1], script);
  }

  /** The prefix depends only on the two extensions tested. */
  lemma SameExtensionsSamePrefix(a: string, b: string)
    requires EndsWith(a, ".py") <==> EndsWith(b, ".py")
    requires EndsWith(a, ".ts") <==> EndsWith(b, ".ts")
    ensures CommandPrefix(a) == CommandPrefix(b)
  {
  }

  function PreToolEntry(h: Hook): HookEntry {
    HookEntry(HookCommand(h.script), TimeoutSeconds(h.timeout), Matcher(h))
  }

  function PostToolEntry(h: Hook): HookEntry {
    HookEntry(HookCommand(h.script), PostToolTimeoutSeconds, Matcher(h))
  }

  function SessionEntry(h: Hook): HookEntry {
    HookEntry(HookCommand(h.script), TimeoutSeconds(h.timeout), None)
  }

  function PreToolEntries(hs: seq<Hook>): (es: seq<HookEntry>)
    ensures |es| == |hs| && forall i :: 0 <= i < |hs| ==> es[i] == PreToolEntry(hs[i])
  {
    seq(|hs|, i requires 0 <= i < |hs| => PreToolEntry(hs[i]))
  }

  function PostToolEntries(hs: seq<Hook>): (es: seq<HookEntry>)
    ensures |es| == |hs| && forall i :: 0 <= i < |hs| ==> es[i] == PostToolEntry(hs[i])
  {
    seq(|hs|, i requires 0 <= i < |hs| => PostToolEntry(hs[i]))
  }

  function SessionEntries(hs: seq<Hook>): (es: seq<HookEntry>)
    ensures |es| == |hs| && forall i :: 0 <= i < |hs| ==> es[i] == SessionEntry(hs[i])
  {
    seq(|hs|, i requires 0 <= i < |hs| => SessionEntry(hs[i]))
  }

  /** Every session hook names an event. */
  predicate HasEvents(hs: seq<Hook>) {
    forall i :: 0 <= i < |hs| ==> hs[i].event.Some?
  }

  function EventKey(h: Hook): string
    requires h.event.Some?
  {
    MapSessionEvent(h.event.value)
  }

  /** The keys of the session groups, in order of first appearance. */
  function SessionKeys(hs: seq<Hook>): seq<string>
    requires HasEvents(hs)
  {
    if |hs| == 0 then []
    else
      var keys, k := SessionKeys(hs[..|hs| - 1]), EventKey(hs[|hs| - 1]);
      if k in keys then keys else keys + [k]
  }

  /** The session hooks whose event maps to `key`, in configuration order. */
  function SessionFilter(hs: seq<Hook>, key: string): seq<Hook>
    requires HasEvents(hs)
  {
    if |hs| == 0 then []
    else SessionFilter(hs[..|hs| - 1], key) + if EventKey(hs[|hs| - 1]) == key then [hs[|hs| - 1]] else []
  }

  /** The session groups: for each key, the entries of its hooks in order. */
  function SessionGroups(hs: seq<Hook>): map<string, seq<HookEntry>>
    requires HasEvents(hs)
  {
    map k | k in SessionKeys(hs) :: SessionEntries(SessionFilter(hs, k))
  }

  /** The `preToolUse` and `postToolUse` keys, each present only for a
      non-empty list. */
  function ToolKeys(pre: seq<Hook>, post: seq<Hook>): seq<string> {
    (if |pre| > 0 then [PreToolKey] else []) + (if |post| > 0 then [PostToolKey] else [])
  }

  function ToolGroups(pre: seq<Hook>, post: seq<Hook>): map<string, seq<HookEntry>> {
    (if |pre| > 0 then map[PreToolKey := PreToolEntries(pre)] else map[])
    + (if |post| > 0 then map[PostToolKey := PostToolEntries(post)] else map[])
  }

  /** The first session hook without an event: the translation stops there
      (`undefined.toLowerCase()` throws). */
  function FirstMissingEvent(hs: seq<Hook>): (r: Option<nat>)
    ensures r.None? <==> HasEvents(hs)
    ensures r.Some? ==> r.value < |hs| && hs[r.value].event.None? && HasEvents(hs[..r.value])
  {
    if |hs| == 0 then None
    else if hs[0].event.None? then Some(0)
    else match FirstMissingEvent(hs[1..])
      case None => None
      case Some(j) =>
        assert hs[..j + 1] == [hs[0]] + hs[1..][..j];
        Some(j + 1)
  }

  /** The first hook without an event is the one the loop stops at. */
  lemma FirstMissingEventAt(hs: seq<Hook>, i: nat)
    requires i < |hs| && hs[i].event.None? && HasEvents(hs[..i])
    ensures FirstMissingEvent(hs) == Some(i)
  {
    var r := FirstMissingEvent(hs);
    assert !HasEvents(hs) by { assert hs[i].event.None?; }
    var k := r.value;
    forall j | 0 <= j < i
      ensures hs[j].event.Some?
    {
      assert hs[..i][j] == hs[j];
    }
    forall j | 0 <= j < k
      ensures hs[j].event.Some?
    {
      assert hs[..k][j] == hs[j];
    }
  }

  /** The `hooks.json` object of a configuration: it fails at the first
      session hook without an event; otherwise it has version 1 and its key
      order lists exactly the keys of its groups. */
  function HooksJsonOf(config: HooksConfig): (r: Result<HooksJson, BuildError>)
    ensures r.Err? <==> !HasEvents(OrEmpty(config.session))
    ensures r.Err? ==> r.error == MissingEvent(FirstMissingEvent(OrEmpty(config.session)).value)
    ensures r.Ok? ==> r.value.version == SchemaVersion
    ensures r.Ok? ==> forall k :: k in r.value.keys <==> k in r.value.hooks
  {
    var pre, post, session := OrEmpty(config.preTool), OrEmpty(config.postTool), OrEmpty(config.session);
    match FirstMissingEvent(session)
    case Some(i) => Err(MissingEvent(i))
    case None =>
      Ok(HooksJson(SchemaVersion, ToolKeys(pre, post) + SessionKeys(session),
                   ToolGroups(pre, post) + SessionGroups(session)))
  }

  lemma {:induction false} SessionFilterAbsent(hs: seq<Hook>, key: string)
    requires HasEvents(hs)
    requires key !in SessionKeys(hs)
    ensures SessionFilter(hs, key) == []
  {
    if |hs| > 0 {
      SessionFilterAbsent(hs[..|hs| - 1], key);
    }
  }

  lemma SessionFilterStep(hs: seq<Hook>, h: Hook, key: string)
    requires HasEvents(hs) && h.event.Some?
    ensures HasEvents(hs + [h])
    ensures SessionFilter(hs + [h], key) == SessionFilter(hs, key) + if EventKey(h) == key then [h] else []
  {
    assert (hs + [h])[..|hs|] == hs;
  }

  lemma SessionEntriesAppend(hs: seq<Hook>, h: Hook)
    ensures SessionEntries(hs + [h]) == SessionEntries(hs) + [SessionEntry(h)]
  {
  }

  /** Appending one session hook adds its key at the end of the key order,
      unless the key is already there. */
  lemma SessionKeysStep(hs: seq<Hook>, h: Hook)
    requires HasEvents(hs) && h.event.Some?
    ensures HasEvents(hs + [h])
    ensures SessionKeys(hs + [h]) ==
              if EventKey(h) in SessionKeys(hs) then SessionKeys(hs) else SessionKeys(hs) + [EventKey(h)]
  {
    assert (hs + [h])[..|hs|] == hs;
  }

  /** Appending one session hook appends its entry to the group of its key,
      creating the group if it is new. */
  lemma SessionStep(hs: seq<Hook>, h: Hook)
    requires HasEvents(hs) && h.event.Some?
    ensures HasEvents(hs + [h])
    ensures var k, g := EventKey(h), SessionGroups(hs);
      SessionGroups(hs + [h]) == g[k := (if k in g then g[k] else []) + [SessionEntry(h)]]
  {
    SessionKeysStep(hs, h);
    var k, g := EventKey(h), SessionGroups(hs);
    var g' := g[k := (if k in g then g[k] else []) + [SessionEntry(h)]];
    var G := SessionGroups(hs + [h]);
    assert G.Keys == g'.Keys;
    forall key | key in G
      ensures G[key] == g'[key]
    {
      SessionGroupAt(hs, h, key);
    }
  }

  lemma SessionGroupAt(hs: seq<Hook>, h: Hook, key: string)
    requires HasEvents(hs) && h.event.Some?
    requires HasEvents(hs + [h])
    requires key in SessionKeys(hs + [h])
    ensures var k, g := EventKey(h), SessionGroups(hs);
      SessionEntries(SessionFilter(hs + [h], key)) ==
        if key == k then (if k in g then g[k] else []) + [SessionEntry(h)] else g[key]
  {
    SessionKeysStep(hs, h);
    SessionFilterStep(hs, h, key);
    var k, g := EventKey(h), SessionGroups(hs);
    if key == k {
      if k !in g {
        SessionFilterAbsent(hs, k);
      }
      SessionEntriesAppend(SessionFilter(hs, key), h);
    }
  }

  /** Updating a session key of the whole object updates the session part
      alone, since no session key is a tool key. */
  lemma OverlayUpdate(base: map<string, seq<HookEntry>>, g: map<string, seq<HookEntry>>,
                      k: string, v: seq<HookEntry>)
    requires k !in base
    ensures (base + g)[k := v] == base + g[k := v]
  {
  }

  lemma TakeOneMore(s: seq<Hook>, i: nat)
    requires i < |s|
    ensures s[..i + 1] == s[..i] + [s[i]]
  {
  }

  /** One iteration of the session loop: looking the key up, creating its
      group if missing, and pushing the entry keeps the object equal to the
      translation of one more hook. */
  lemma PushStep(baseKeys: seq<string>, base: map<string, seq<HookEntry>>, prefix: seq<Hook>, h: Hook,
                 keys: seq<string>, hooks: map<string, seq<HookEntry>>,
                 keys': seq<string>, hooks': map<string, seq<HookEntry>>)
    requires HasEvents(prefix) && h.event.Some? && EventKey(h) !in base
    requires keys == baseKeys + SessionKeys(prefix) && hooks == base + SessionGroups(prefix)
    requires var k := EventKey(h);
      var created := if k in hooks then hooks else hooks[k := []];
      && keys' == (if k in hooks then keys else keys + [k])
      && hooks' == created[k := created[k] + [SessionEntry(h)]]
    ensures HasEvents(prefix + [h])
    ensures keys' == baseKeys + SessionKeys(prefix + [h])
    ensures hooks' == base + SessionGroups(prefix + [h])
  {
    var k, g := EventKey(h), SessionGroups(prefix);
    assert k in hooks <==> k in g;
    PushKeys(baseKeys, prefix, h, keys, keys');
    if k in g {
      PushGroup(base, prefix, h, hooks, hooks');
    } else {
      OverlayUpdate(base, g, k, []);
      PushGroup(base, prefix, h, hooks[k := []], hooks');
    }
  }

  lemma PushKeys(baseKeys: seq<string>, prefix: seq<Hook>, h: Hook, keys: seq<string>, keys': seq<string>)
    requires HasEvents(prefix) && h.event.Some?
    requires keys == baseKeys + SessionKeys(prefix)
    requires keys' == if EventKey(h) in SessionKeys(prefix) then keys else keys + [EventKey(h)]
    ensures HasEvents(prefix + [h])
    ensures keys' == baseKeys + SessionKeys(prefix + [h])
  {
    SessionKeysStep(prefix, h);
    if EventKey(h) !in SessionKeys(prefix) {
      assert keys + [EventKey(h)] == baseKeys + (SessionKeys(prefix) + [EventKey(h)]);
    }
  }

  lemma PushGroup(base: map<string, seq<HookEntry>>, prefix: seq<Hook>, h: Hook,
                  created: map<string, seq<HookEntry>>, hooks': map<string, seq<HookEntry>>)
    requires HasEvents(prefix) && h.event.Some? && EventKey(h) !in base
    requires var k, g := EventKey(h), SessionGroups(prefix);
      created == base + (if k in g then g else g[k := []])
    requires hooks' == created[EventKey(h) := created[EventKey(h)] + [SessionEntry(h)]]
    ensures HasEvents(prefix + [h])
    ensures hooks' == base + SessionGroups(prefix + [h])
  {
    SessionStep(prefix, h);
    var k, g, e := EventKey(h), SessionGroups(prefix), SessionEntry(h);
    if k in g {
      assert created[k] == g[k];
      OverlayUpdate(base, g, k, g[k] + [e]);
    } else {
      assert created[k] == [];
      ReplaceTwice(g, k, [], [] + [e]);
      OverlayUpdate(base, g[k := []], k, [] + [e]);
    }
  }

  /** `generateHooksJson`: builds the object step by step, creating each
      session group the first time its key is met. */
  method GenerateHooksJson(config: HooksConfig) returns (r: Result<HooksJson, BuildError>)
    ensures r == HooksJsonOf(config)
  {
    var pre, post, session := OrEmpty(config.preTool), OrEmpty(config.postTool), OrEmpty(config.session);
    var keys: seq<string> := [];
    var hooks: map<string, seq<HookEntry>> := map[];
    if |pre| > 0 {
      keys := keys + [PreToolKey];
      hooks := hooks[PreToolKey := PreToolEntries(pre)];
    }
    if |post| > 0 {
      keys := keys + [PostToolKey];
      hooks := hooks[PostToolKey := PostToolEntries(post)];
    }
    ghost var baseKeys, base := ToolKeys(pre, post), ToolGroups(pre, post);
    ghost var done: seq<Hook> := [];
    assert keys == baseKeys + SessionKeys(done);
    assert hooks == base + SessionGroups(done);
    var i := 0;
    while i < |session|
      invariant 0 <= i <= |session| && done == session[..i]
      invariant HasEvents(done)
      invariant keys == baseKeys + SessionKeys(done)
      invariant hooks == base + SessionGroups(done)
    {
      var h := session[i];
      if h.event.None? {
        FirstMissingEventAt(session, i);
        return Err(MissingEvent(i));
      }
      var key := MapSessionEvent(h.event.value);
      ghost var keys0, hooks0 := keys, hooks;
      if key !in hooks {
        keys := keys + [key];
        hooks := hooks[key := []];
      }
      hooks := hooks[key := hooks[key] + [SessionEntry(h)]];
      PushStep(baseKeys, base, done, h, keys0, hooks0, keys, hooks);
      TakeOneMore(session, i);
      done := done + [h];
      i := i + 1;
    }
    assert done == session;
    r := Ok(HooksJson(SchemaVersion, keys, hooks));
  }
}
