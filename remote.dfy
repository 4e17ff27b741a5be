/** The remote target: `skills/`, `agents/` and `commands/` at the output root
    are emptied and rebuilt from the source, then `hooks.json` is written. */
module RemoteTarget {

  import opened Values
  import opened Text
  import opened FileTree
  import opened Skills
  import opened Agents
  import opened Hooks

  const HooksFile := "hooks.json"

  /** The output directories the build empties first, in order. */
  const CleanedDirs: seq<string> := [SkillsDir, AgentsDir, CommandsDir]

  /** The output root after emptying each of `dirs` in turn. */
  function Cleaned(entries: map<string, Node>, dirs: seq<string>): (e: map<string, Node>)
    ensures e.Keys == entries.Keys + set d | d in dirs
    ensures forall k :: k in e ==> e[k] == if k in dirs then Dir(map[]) else entries[k]
  {
    if |dirs| == 0 then entries
    else Cleaned(entries, dirs[..|dirs| - 1])[dirs[|dirs| - 1] := Dir(map[])]
  }

  /** The clean step: each of the three directories is removed if present and
      created again, empty. */
  method Clean(out: OutputDir)
    modifies out
    ensures out.entries == Cleaned(old(out.entries), CleanedDirs)
  {
    ghost var before := out.entries;
    for i := 0 to |CleanedDirs|
      invariant out.entries == Cleaned(before, CleanedDirs[..i])
    {
      out.Recreate(CleanedDirs[i]);
      assert CleanedDirs[..i + 1][..i] == CleanedDirs[..i];
    }
    assert CleanedDirs[..|CleanedDirs|] == CleanedDirs;
  }

  /** After the clean step the three directories exist and are empty, and
      nothing else has changed. */
  lemma CleanedRoot(entries: map<string, Node>)
    ensures var e := Cleaned(entries, CleanedDirs);
      && e.Keys == entries.Keys + {SkillsDir, AgentsDir, CommandsDir}
      && e[SkillsDir] == Dir(map[]) && e[AgentsDir] == Dir(map[]) && e[CommandsDir] == Dir(map[])
      && forall k :: k in entries && k !in CleanedDirs ==> e[k] == entries[k]
  {
    assert (set d | d in CleanedDirs) == {SkillsDir, AgentsDir, CommandsDir};
  }

  /** The names of the output root the build writes. */
  predicate IsOutputName(k: string) {
    k in CleanedDirs || k == HooksFile
  }

  lemma OutputNamesDistinct()
    ensures SkillsDir != AgentsDir && SkillsDir != CommandsDir && AgentsDir != CommandsDir
    ensures HooksFile !in CleanedDirs
  {
    assert SkillsDir[0] != AgentsDir[0] && SkillsDir[0] != CommandsDir[0] && AgentsDir[0] != CommandsDir[0];
    assert HooksFile[0] !in {SkillsDir[0], AgentsDir[0], CommandsDir[0]};
  }

  /** The output root with the four outputs in place. */
  function Install(entries: map<string, Node>, skills: Node, agents: Node, commands: Node, hooks: Node)
    : (e: map<string, Node>)
    ensures e.Keys == entries.Keys + {SkillsDir, AgentsDir, CommandsDir, HooksFile}
    ensures e[SkillsDir] == skills && e[AgentsDir] == agents && e[CommandsDir] == commands && e[HooksFile] == hooks
    ensures forall k :: k in entries && !IsOutputName(k) ==> e[k] == entries[k]
  {
    OutputNamesDistinct();
    entries[SkillsDir := skills][AgentsDir := agents][CommandsDir := commands][HooksFile := hooks]
  }

  /** Installing the same outputs again changes nothing. */
  lemma InstallTwice(entries: map<string, Node>, skills: Node, agents: Node, commands: Node, hooks: Node)
    ensures var once := Install(entries, skills, agents, commands, hooks);
      Install(once, skills, agents, commands, hooks) == once
  {
    var once := Install(entries, skills, agents, commands, hooks);
    var twice := Install(once, skills, agents, commands, hooks);
    assert forall k :: k in twice ==> twice[k] == once[k];
  }

  /** `hooks.json` can be written over what the output root holds under that
      name: nothing, or a file, but not a directory. */
  predicate HooksFileWritable(entries: map<string, Node>) {
    !(HooksFile in entries && entries[HooksFile].Dir?)
  }

  /** The output root after a successful build, or `None` when some step
      fails: the three directories hold exactly what the source produces,
      `hooks.json` holds the rendered hooks object, and every other entry is
      left alone. */
  function RemoteOutput(src: map<string, Node>, config: HooksConfig, ext: Externals,
                        renderJson: HooksJson -> string, entries: map<string, Node>): (r: Option<map<string, Node>>)
    ensures var skills, agents, commands :=
        DirOutput(SkillResults(RemoteSkillTarget, src, ext)), DirOutput(AgentResults(src, ext)),
        DirOutput(CommandResults(src));
      && (r.Some? <==> skills.Some? && agents.Some? && commands.Some? && HooksJsonOf(config).Ok?
                       && HooksFileWritable(entries))
      && (r.Some? ==>
            && r.value.Keys == entries.Keys + {SkillsDir, AgentsDir, CommandsDir, HooksFile}
            && r.value[SkillsDir] == skills.value && r.value[AgentsDir] == agents.value
            && r.value[CommandsDir] == commands.value
            && r.value[HooksFile] == File(renderJson(HooksJsonOf(config).value))
            && forall k :: k in entries && !IsOutputName(k) ==> r.value[k] == entries[k])
  {
    var skills := DirOutput(SkillResults(RemoteSkillTarget, src, ext));
    var agents := DirOutput(AgentResults(src, ext));
    var commands := DirOutput(CommandResults(src));
    var hooks := HooksJsonOf(config);
    if skills.Some? && agents.Some? && commands.Some? && hooks.Ok? && HooksFileWritable(entries) then
      Some(Install(entries, skills.value, agents.value, commands.value, File(renderJson(hooks.value))))
    else None
  }

  /** Emptying the three directories is invisible once all four outputs are
      in place. */
  lemma CleanedThenFilled(entries: map<string, Node>, skills: Node, agents: Node, commands: Node, hooks: Node)
    ensures Cleaned(entries, CleanedDirs)[SkillsDir := skills][AgentsDir := agents][CommandsDir := commands]
              [HooksFile := hooks]
         == Install(entries, skills, agents, commands, hooks)
  {
    var l := Cleaned(entries, CleanedDirs)[SkillsDir := skills][AgentsDir := agents][CommandsDir := commands]
               [HooksFile := hooks];
    var r := Install(entries, skills, agents, commands, hooks);
    assert l.Keys == r.Keys;
  }

  /** The three copy steps, in order, on a freshly cleaned output root. A
      failing step stops the sequence: the directories after it stay empty. */
  method CopyStages(src: map<string, Node>, out: OutputDir, ext: Externals) returns (r: Result<(), BuildError>)
    requires forall d :: d in CleanedDirs ==> d in out.entries && out.entries[d] == Dir(map[])
    modifies out
    ensures out.entries.Keys == old(out.entries).Keys
    ensures var skills, agents, commands :=
        DirOutput(SkillResults(RemoteSkillTarget, src, ext)), DirOutput(AgentResults(src, ext)),
        DirOutput(CommandResults(src));
      && (r.Ok? <==> skills.Some? && agents.Some? && commands.Some?)
      && (r.Ok? ==> out.entries == old(out.entries)[SkillsDir := skills.value][AgentsDir := agents.value]
                                                 [CommandsDir := commands.value])
      && (skills.None? ==> out.entries[AgentsDir] == Dir(map[]) && out.entries[CommandsDir] == Dir(map[]))
      && (agents.None? ==> out.entries[CommandsDir] == Dir(map[]))
    ensures forall k :: k in out.entries && k !in CleanedDirs ==> out.entries[k] == old(out.entries)[k]
  {
    OutputNamesDistinct();
    r := CopySkills(RemoteSkillTarget, src, out, ext);
    if r.Err? {
      return;
    }
    r := CopyAgents(src, out, ext);
    if r.Err? {
      return;
    }
    r := CopyCommands(src, out);
  }

  /** `build`: clean, copy skills, agents and commands, then write
      `hooks.json`. A failing step stops the build: later directories stay
      empty and `hooks.json` is not written; a directory named `hooks.json`
      fails the write. */
  method Build(src: map<string, Node>, config: HooksConfig, out: OutputDir, ext: Externals,
               renderJson: HooksJson -> string) returns (r: Result<(), BuildError>)
    modifies out
    ensures r.Ok? <==> RemoteOutput(src, config, ext, renderJson, old(out.entries)).Some?
    ensures r.Ok? ==> out.entries == RemoteOutput(src, config, ext, renderJson, old(out.entries)).value
    ensures r.Err? ==> out.entries.Keys == old(out.entries).Keys + {SkillsDir, AgentsDir, CommandsDir}
    ensures forall k :: k in old(out.entries) && k !in CleanedDirs && (r.Err? || k != HooksFile) ==>
              out.entries[k] == old(out.entries)[k]
    ensures DirOutput(SkillResults(RemoteSkillTarget, src, ext)).None? ==>
              out.entries[AgentsDir] == Dir(map[]) && out.entries[CommandsDir] == Dir(map[])
    ensures DirOutput(AgentResults(src, ext)).None? ==> out.entries[CommandsDir] == Dir(map[])
  {
    ghost var before := out.entries;
    Clean(out);
    CleanedRoot(before);
    ghost var cleaned := out.entries;
    r := CopyStages(src, out, ext);
    if r.Err? {
      return;
    }
    var hooks := GenerateHooksJson(config);
    if hooks.Err? {
      return Err(hooks.error);
    }
    ghost var skills := DirOutput(SkillResults(RemoteSkillTarget, src, ext)).value;
    ghost var agents := DirOutput(AgentResults(src, ext)).value;
    ghost var commands := DirOutput(CommandResults(src)).value;
    ghost var hooksFile := File(renderJson(hooks.value));
    assert out.entries == cleaned[SkillsDir := skills][AgentsDir := agents][CommandsDir := commands];
    assert HooksFile !in CleanedDirs;
    assert HooksFileWritable(out.entries) == HooksFileWritable(before);
    var w := out.WriteFile(HooksFile, renderJson(hooks.value));
    if w.Err? {
      return Err(w.error);
    }
    CleanedThenFilled(before, skills, agents, commands, hooksFile);
    assert RemoteOutput(src, config, ext, renderJson, before) == Some(Install(before, skills, agents, commands, hooksFile));
    r := Ok(());
  }

  // ---- Properties of the output ------------------------------------------------

  /** Building twice gives what building once gives. */
  lemma RebuildIsIdempotent(src: map<string, Node>, config: HooksConfig, ext: Externals,
                            renderJson: HooksJson -> string, entries: map<string, Node>)
    requires RemoteOutput(src, config, ext, renderJson, entries).Some?
    ensures var once := RemoteOutput(src, config, ext, renderJson, entries).value;
      RemoteOutput(src, config, ext, renderJson, once) == Some(once)
  {
    var skills := DirOutput(SkillResults(RemoteSkillTarget, src, ext)).value;
    var agents := DirOutput(AgentResults(src, ext)).value;
    var commands := DirOutput(CommandResults(src)).value;
    InstallTwice(entries, skills, agents, commands, File(renderJson(HooksJsonOf(config).value)));
  }

  /** Nothing of a previous build survives under the four output names: they
      depend on the source and configuration only (and whether the build
      succeeds, on whether `hooks.json` can be written). Every other entry of
      the output root is left as it was. */
  lemma NoStaleOutput(src: map<string, Node>, config: HooksConfig, ext: Externals,
                      renderJson: HooksJson -> string, e1: map<string, Node>, e2: map<string, Node>)
    ensures HooksFileWritable(e1) && HooksFileWritable(e2) ==>
              (RemoteOutput(src, config, ext, renderJson, e1).Some?
               <==> RemoteOutput(src, config, ext, renderJson, e2).Some?)
    ensures (RemoteOutput(src, config, ext, renderJson, e1).Some?
             && RemoteOutput(src, config, ext, renderJson, e2).Some?) ==>
              var o1, o2 := RemoteOutput(src, config, ext, renderJson, e1).value,
                            RemoteOutput(src, config, ext, renderJson, e2).value;
              && (forall k :: k in CleanedDirs || k == HooksFile ==> k in o1 && k in o2 && o1[k] == o2[k])
              && (forall k :: k in e1 && k !in CleanedDirs && k != HooksFile ==> k in o1 && o1[k] == e1[k])
  {
    var r1, r2 := RemoteOutput(src, config, ext, renderJson, e1), RemoteOutput(src, config, ext, renderJson, e2);
    if r1.Some? && r2.Some? {
      forall k | IsOutputName(k)
        ensures k in r1.value && k in r2.value && r1.value[k] == r2.value[k]
      {
        assert k == SkillsDir || k == AgentsDir || k == CommandsDir || k == HooksFile;
      }
    }
  }

  /** Every output skill is a source skill directory; every output agent and
      command is a `.md` entry of its source directory, and a command is
      copied unchanged. */
  lemma OutputComesFromSource(src: map<string, Node>, config: HooksConfig, ext: Externals,
                              renderJson: HooksJson -> string, entries: map<string, Node>)
    requires RemoteOutput(src, config, ext, renderJson, entries).Some?
    ensures var o := RemoteOutput(src, config, ext, renderJson, entries).value;
      && o[SkillsDir].Dir? && o[AgentsDir].Dir? && o[CommandsDir].Dir?
      && (forall s :: s in o[SkillsDir].children ==>
            SkillsDir in src && src[SkillsDir].Dir? && s in src[SkillsDir].children
            && src[SkillsDir].children[s].Dir?)
      && (forall f :: f in o[AgentsDir].children ==>
            AgentsDir in src && src[AgentsDir].Dir? && f in src[AgentsDir].children
            && EndsWith(f, MarkdownExtension))
      && (forall f :: f in o[CommandsDir].children ==>
            CommandsDir in src && src[CommandsDir].Dir? && f in src[CommandsDir].children
            && EndsWith(f, MarkdownExtension) && o[CommandsDir].children[f] == src[CommandsDir].children[f])
  {
    var o := RemoteOutput(src, config, ext, renderJson, entries).value;
    var sr, ar, cr := SkillResults(RemoteSkillTarget, src, ext), AgentResults(src, ext), CommandResults(src);
    assert o[SkillsDir] == Dir(Successes(sr.value));
    assert o[AgentsDir] == Dir(Successes(ar.value));
    assert o[CommandsDir] == Dir(Successes(cr.value));
    forall f | f in o[CommandsDir].children
      ensures CommandsDir in src && src[CommandsDir].Dir? && f in src[CommandsDir].children
      ensures EndsWith(f, MarkdownExtension) && o[CommandsDir].children[f] == src[CommandsDir].children[f]
    {
      var c := src[CommandsDir].children;
      assert cr.value[f] == CommandOutput(f, c[f]);
    }
  }

  /** A remote skill carries its source `references`, `scripts` and `assets`
      unchanged, and nothing else besides `SKILL.md`. */
  lemma RemoteSkillShape(src: map<string, Node>, config: HooksConfig, ext: Externals,
                         renderJson: HooksJson -> string, entries: map<string, Node>, s: string)
    requires RemoteOutput(src, config, ext, renderJson, entries).Some?
    requires s in RemoteOutput(src, config, ext, renderJson, entries).value[SkillsDir].children
    ensures SkillsDir in src && src[SkillsDir].Dir? && s in src[SkillsDir].children
    ensures src[SkillsDir].children[s].Dir?
    ensures var skill, dir := RemoteOutput(src, config, ext, renderJson, entries).value[SkillsDir].children[s],
                              src[SkillsDir].children[s].children;
      && skill.Dir?
      && (SkillFile in skill.children <==> SkillFile in dir)
      && (forall d :: d in skill.children ==> d == SkillFile || d in RemoteSkillTarget.sideDirs)
      && (forall d :: d in RemoteSkillTarget.sideDirs ==>
            (d in skill.children <==> d in dir) && (d in dir ==> skill.children[d] == dir[d]))
  {
    var o := RemoteOutput(src, config, ext, renderJson, entries).value;
    var sr := SkillResults(RemoteSkillTarget, src, ext);
    assert o[SkillsDir] == Dir(Successes(sr.value));
    assert o[SkillsDir].children[s] == sr.value[s].value;
    BuiltSkillShape(RemoteSkillTarget, src, ext, s);
    SkillFileIsNotSideDir("");
  }
}
