/** Properties of the `hooks.json` translation that relate several parts of
    the object: which keys exist, that they name the groups exactly once, and
    that every configured hook yields exactly one entry. */
module HookProperties {

  import opened Values
  import opened Hooks

  /** No value occurs twice. */
  predicate Distinct(s: seq<string>) {
    forall i, j :: 0 <= i < j < |s| ==> s[i] != s[j]
  }

  /** How many times `x` occurs in `s`. */
  function Occurrences(s: seq<string>, x: string): nat {
    if |s| == 0 then 0
    else Occurrences(s[..|s| - 1], x) + if s[|s| - 1] == x then 1 else 0
  }

  /** The number of entries under the listed keys. */
  function EntryTotal(keys: seq<string>, hooks: map<string, seq<HookEntry>>): nat {
    if |keys| == 0 then 0
    else EntryTotal(keys[..|keys| - 1], hooks) + if keys[|keys| - 1] in hooks then |hooks[keys[|keys| - 1]]| else 0
  }

  /** The number of session hooks selected by the listed keys. */
  function FilterTotal(hs: seq<Hook>, keys: seq<string>): nat
    requires HasEvents(hs)
  {
    if |keys| == 0 then 0
    else FilterTotal(hs, keys[..|keys| - 1]) + |SessionFilter(hs, keys[|keys| - 1])|
  }

  /** A prefix of hooks that all name an event also does. */
  lemma HasEventsPrefix(hs: seq<Hook>, n: nat)
    requires HasEvents(hs) && n <= |hs|
    ensures HasEvents(hs[..n])
  {
    forall i | 0 <= i < n ensures hs[..n][i].event.Some? {
      assert hs[..n][i] == hs[i];
    }
  }

  // ---- Keys -----------------------------------------------------------------

  /** A configuration without hooks gives `{version: 1, hooks: {}}`, whether
      its lists are absent or empty. */
  lemma EmptyConfig(config: HooksConfig)
    requires OrEmpty(config.preTool) == [] && OrEmpty(config.postTool) == [] && OrEmpty(config.session) == []
    ensures HooksJsonOf(config) == Ok(HooksJson(1, [], map[]))
  {
    var empty: seq<Hook> := [];
    assert FirstMissingEvent(empty) == None;
    assert ToolKeys(empty, empty) == [] + [];
    assert ToolGroups(empty, empty) == map[] + map[];
    assert SessionKeys(empty) == [];
    assert SessionGroups(empty) == map[];
  }

  /** Session keys are never tool keys. */
  lemma {:induction false} SessionKeysAreNotToolKeys(hs: seq<Hook>)
    requires HasEvents(hs)
    ensures PreToolKey !in SessionKeys(hs) && PostToolKey !in SessionKeys(hs)
  {
    if |hs| > 0 {
      HasEventsPrefix(hs, |hs| - 1);
      SessionKeysAreNotToolKeys(hs[..|hs| - 1]);
    }
  }

  /** A session key appears once, at its first occurrence. */
  lemma {:induction false} SessionKeysDistinct(hs: seq<Hook>)
    requires HasEvents(hs)
    ensures Distinct(SessionKeys(hs))
  {
    if |hs| > 0 {
      HasEventsPrefix(hs, |hs| - 1);
      SessionKeysDistinct(hs[..|hs| - 1]);
    }
  }

  /** The group keys: `preToolUse` exactly when the pre-tool list is non-empty,
      `postToolUse` likewise, and each key listed once and naming one group. */
  lemma ToolKeysPresent(config: HooksConfig)
    requires HooksJsonOf(config).Ok?
    ensures var j, pre, post := HooksJsonOf(config).value, OrEmpty(config.preTool), OrEmpty(config.postTool);
      && j.version == 1
      && (PreToolKey in j.hooks <==> |pre| > 0)
      && (PostToolKey in j.hooks <==> |post| > 0)
      && (|pre| > 0 ==> j.hooks[PreToolKey] == PreToolEntries(pre))
      && (|post| > 0 ==> j.hooks[PostToolKey] == PostToolEntries(post))
  {
    var session := OrEmpty(config.session);
    SessionKeysAreNotToolKeys(session);
  }

  /** The written key order lists every group once and nothing else. */
  lemma KeysNameGroups(config: HooksConfig)
    requires HooksJsonOf(config).Ok?
    ensures var j := HooksJsonOf(config).value;
      Distinct(j.keys) && (forall k :: k in j.keys <==> k in j.hooks)
  {
    var pre, post, session := OrEmpty(config.preTool), OrEmpty(config.postTool), OrEmpty(config.session);
    SessionKeysAreNotToolKeys(session);
    SessionKeysDistinct(session);
    var tk, sk := ToolKeys(pre, post), SessionKeys(session);
    assert Distinct(tk);
    forall i, j | 0 <= i < j < |tk + sk|
      ensures (tk + sk)[i] != (tk + sk)[j]
    {
      if j >= |tk| && i < |tk| {
        assert (tk + sk)[j] in sk;
      }
    }
  }

  // ---- Entries ---------------------------------------------------------------

  /** The i-th pre-tool entry runs the i-th pre-tool hook's command, with its
      timeout in seconds, and carries a matcher exactly when the hook's
      matcher is truthy. */
  lemma PreToolEntryFields(config: HooksConfig, i: nat)
    requires HooksJsonOf(config).Ok? && i < |OrEmpty(config.preTool)|
    ensures var j, h := HooksJsonOf(config).value, OrEmpty(config.preTool)[i];
      && PreToolKey in j.hooks && |j.hooks[PreToolKey]| == |OrEmpty(config.preTool)|
      && var e := j.hooks[PreToolKey][i];
      && e.command == HookCommand(h.script)
      && e.timeout == TimeoutSeconds(h.timeout)
      && (e.matcher.Some? <==> h.matcher.Some? && Truthy(h.matcher.value))
      && (e.matcher.Some? ==> e.matcher.value == Object(map["tool_name" := h.matcher.value]))
  {
    ToolKeysPresent(config);
  }

  /** The i-th post-tool entry runs the i-th post-tool hook's command with the
      fixed 30-second timeout, whatever the hook's own timeout, and carries a
      matcher exactly when the hook's matcher is truthy. */
  lemma PostToolEntryFields(config: HooksConfig, i: nat)
    requires HooksJsonOf(config).Ok? && i < |OrEmpty(config.postTool)|
    ensures var j, h := HooksJsonOf(config).value, OrEmpty(config.postTool)[i];
      && PostToolKey in j.hooks && |j.hooks[PostToolKey]| == |OrEmpty(config.postTool)|
      && var e := j.hooks[PostToolKey][i];
      && e.command == HookCommand(h.script)
      && e.timeout == 30
      && (e.matcher.Some? <==> h.matcher.Some? && Truthy(h.matcher.value))
      && (e.matcher.Some? ==> e.matcher.value == Object(map["tool_name" := h.matcher.value]))
  {
    ToolKeysPresent(config);
  }

  /** Every group other than the two tool groups holds session entries, and
      no session entry carries a matcher. */
  lemma SessionEntriesHaveNoMatcher(config: HooksConfig, k: string)
    requires HooksJsonOf(config).Ok? && k in HooksJsonOf(config).value.hooks
    requires k != PreToolKey && k != PostToolKey
    ensures forall e :: e in HooksJsonOf(config).value.hooks[k] ==> e.matcher.None?
  {
    var session := OrEmpty(config.session);
    var j := HooksJsonOf(config).value;
    assert j.hooks[k] == SessionEntries(SessionFilter(session, k));
  }

  // ---- Counts ---------------------------------------------------------------

  lemma {:induction false} OccurrencesOfDistinct(s: seq<string>, x: string)
    requires Distinct(s)
    ensures Occurrences(s, x) == if x in s then 1 else 0
  {
    if |s| > 0 {
      var front := s[..|s| - 1];
      OccurrencesOfDistinct(front, x);
      assert x in s <==> x in front || s[|s| - 1] == x;
      if s[|s| - 1] == x {
        assert x !in front by {
          forall i | 0 <= i < |front| ensures front[i] != x {
            assert front[i] == s[i];
          }
        }
      }
    }
  }

  /** One more session hook adds one to the count of every key it matches. */
  lemma {:induction false} FilterTotalStep(hs: seq<Hook>, h: Hook, keys: seq<string>)
    requires HasEvents(hs) && h.event.Some?
    ensures HasEvents(hs + [h])
    ensures FilterTotal(hs + [h], keys) == FilterTotal(hs, keys) + Occurrences(keys, EventKey(h))
  {
    assert HasEvents(hs + [h]) by {
      forall i | 0 <= i < |hs + [h]| ensures (hs + [h])[i].event.Some? {
        if i < |hs| { assert (hs + [h])[i] == hs[i]; }
      }
    }
    if |keys| > 0 {
      FilterTotalStep(hs, h, keys[..|keys| - 1]);
      SessionFilterStep(hs, h, keys[|keys| - 1]);
    }
  }

  lemma FilterTotalAppend(hs: seq<Hook>, keys: seq<string>, k: string)
    requires HasEvents(hs)
    ensures FilterTotal(hs, keys + [k]) == FilterTotal(hs, keys) + |SessionFilter(hs, k)|
  {
    assert (keys + [k])[..|keys|] == keys;
  }

  /** Every session hook is counted once, under its own key. */
  lemma {:induction false} SessionTotal(hs: seq<Hook>)
    requires HasEvents(hs)
    ensures FilterTotal(hs, SessionKeys(hs)) == |hs|
  {
    if |hs| > 0 {
      var front, h := hs[..|hs| - 1], hs[|hs| - 1];
      assert hs == front + [h];
      HasEventsPrefix(hs, |hs| - 1);
      SessionTotal(front);
      SessionKeysDistinct(front);
      var keys, k := SessionKeys(front), EventKey(h);
      FilterTotalStep(front, h, keys);
      OccurrencesOfDistinct(keys, k);
      SessionKeysStep(front, h);
      if k !in keys {
        FilterTotalAppend(hs, keys, k);
        SessionFilterStep(front, h, k);
        SessionFilterAbsent(front, k);
      }
    }
  }

  lemma EntryTotalAppend(a: seq<string>, b: seq<string>, hooks: map<string, seq<HookEntry>>)
    ensures EntryTotal(a + b, hooks) == EntryTotal(a, hooks) + EntryTotal(b, hooks)
    decreases |b|
  {
    if |b| == 0 {
      assert a + b == a;
    } else {
      assert (a + b)[..|a + b| - 1] == a + b[..|b| - 1];
      assert (a + b)[|a + b| - 1] == b[|b| - 1];
      EntryTotalAppend(a, b[..|b| - 1], hooks);
    }
  }

  /** Under session keys the whole object holds the session groups. */
  lemma {:induction false} SessionEntryTotal(hs: seq<Hook>, keys: seq<string>, tools: map<string, seq<HookEntry>>)
    requires HasEvents(hs)
    requires forall k :: k in keys ==> k in SessionKeys(hs) && k !in tools
    ensures EntryTotal(keys, tools + SessionGroups(hs)) == FilterTotal(hs, keys)
  {
    if |keys| > 0 {
      var front := keys[..|keys| - 1];
      assert forall k :: k in front ==> k in keys;
      SessionEntryTotal(hs, front, tools);
    }
  }

  /** Every configured hook becomes exactly one entry:
      the entries number `|pre| + |post| + |session|`. */
  lemma EntryCount(config: HooksConfig)
    requires HooksJsonOf(config).Ok?
    ensures var j := HooksJsonOf(config).value;
      EntryTotal(j.keys, j.hooks)
        == |OrEmpty(config.preTool)| + |OrEmpty(config.postTool)| + |OrEmpty(config.session)|
  {
    var pre, post, session := OrEmpty(config.preTool), OrEmpty(config.postTool), OrEmpty(config.session);
    var tk, sk := ToolKeys(pre, post), SessionKeys(session);
    var tools, groups := ToolGroups(pre, post), SessionGroups(session);
    SessionKeysAreNotToolKeys(session);
    EntryTotalAppend(tk, sk, tools + groups);
    ToolTotal(pre, post, groups);
    SessionEntryTotal(session, sk, tools);
    SessionTotal(session);
  }

  /** The tool groups hold one entry per pre-tool and post-tool hook. */
  lemma ToolTotal(pre: seq<Hook>, post: seq<Hook>, groups: map<string, seq<HookEntry>>)
    requires PreToolKey !in groups && PostToolKey !in groups
    ensures EntryTotal(ToolKeys(pre, post), ToolGroups(pre, post) + groups) == |pre| + |post|
  {
    var tk := ToolKeys(pre, post);
    if |pre| > 0 && |post| > 0 {
      var m := ToolGroups(pre, post) + groups;
      assert PreToolKey != PostToolKey by { assert PreToolKey[1] != PostToolKey[1]; }
      assert m[PreToolKey] == PreToolEntries(pre) && m[PostToolKey] == PostToolEntries(post);
      assert tk == [PreToolKey, PostToolKey] && tk[..1] == [PreToolKey] && tk[..1][..0] == [];
      assert EntryTotal(tk[..1], m) == |pre|;
    } else if |pre| > 0 {
      assert tk == [PreToolKey] && tk[..0] == [];
    } else if |post| > 0 {
      assert tk == [PostToolKey] && tk[..0] == [];
    } else {
      assert tk == [];
    }
  }

  // ---- Membership -------------------------------------------------------------

  lemma {:induction false} FilterHolds(hs: seq<Hook>, i: nat)
    requires HasEvents(hs) && i < |hs|
    ensures hs[i] in SessionFilter(hs, EventKey(hs[i]))
    ensures EventKey(hs[i]) in SessionKeys(hs)
  {
    var front := hs[..|hs| - 1];
    HasEventsPrefix(hs, |hs| - 1);
    if i < |hs| - 1 {
      assert front[i] == hs[i];
      FilterHolds(front, i);
    }
  }

  /** Each session hook's entry is in the group of its mapped event. */
  lemma SessionHookInItsGroup(config: HooksConfig, i: nat)
    requires HooksJsonOf(config).Ok? && i < |OrEmpty(config.session)|
    ensures var session := OrEmpty(config.session);
      && session[i].event.Some?
      && var k := MapSessionEvent(session[i].event.value);
      && k in HooksJsonOf(config).value.hooks
      && SessionEntry(session[i]) in HooksJsonOf(config).value.hooks[k]
  {
    var session := OrEmpty(config.session);
    FilterHolds(session, i);
    SessionKeysAreNotToolKeys(session);
    var k := EventKey(session[i]);
    var f := SessionFilter(session, k);
    var n :| 0 <= n < |f| && f[n] == session[i];
    assert SessionEntries(f)[n] == SessionEntry(session[i]);
  }
}
