/** The remote target's agents and commands: each `.md` file of `agents/` is
    rewritten with a Cursor-style header; each `.md` file of `commands/` is
    copied unchanged. */
module Agents {

  import opened Values
  import opened Text
  import opened Merge
  import opened FileTree
  import opened Sidecar

  const AgentsDir := "agents"
  const CommandsDir := "commands"
  const MarkdownExtension := ".md"
  const RemoteTargetName := "remote"

  /** The orchestrating agent, which runs in the foreground. */
  const PmAgent := "pm"

  const DefaultAgentFrontmatter: Frontmatter := map["model" := Str("inherit"), "is_background" := Bool(true)]
  const PmAgentFrontmatter: Frontmatter := map["model" := Str("inherit"), "is_background" := Bool(false)]

  /** The agent name as the build script derives it: `file.replace(".md", "")`,
      which removes the FIRST `.md` in the name, not the extension. */
  function AgentNameAsWritten(file: string): (name: string)
    ensures EndsWith(file, MarkdownExtension) ==> |name| + |MarkdownExtension| == |file|
    ensures (forall j: nat :: !OccursAt(file, MarkdownExtension, j)) ==> name == file
  {
    if EndsWith(file, MarkdownExtension) then
      assert OccursAt(file, MarkdownExtension, |file| - |MarkdownExtension|);
      ReplaceFirst(file, MarkdownExtension, "")
    else
      ReplaceFirst(file, MarkdownExtension, "")
  }

  /** The agent name with the extension removed, the same stem the sidecar
      lookup uses. */
  function AgentName(file: string): (name: string)
    ensures EndsWith(file, MarkdownExtension) && |file| > |MarkdownExtension| ==>
              name + MarkdownExtension == file
  {
    Basename(file, MarkdownExtension)
  }

  /** On `a.mdx.md` the two derivations disagree: the build script names the
      agent `ax.md`, while its sidecar is looked up as `a.mdx.remote.yaml`. */
  lemma AgentNameAsWrittenStripsFirstMatch()
    ensures AgentNameAsWritten("a.mdx.md") == "ax.md"
    ensures AgentName("a.mdx.md") == "a.mdx"
    ensures AgentSidecarName("a.mdx.md", RemoteTargetName) == AgentName("a.mdx.md") + ".remote.yaml"
  {
    FirstMarkdownOfMdx();
    var f := "a.mdx.md";
    assert f[..1] + "" + f[4..] == "ax.md";
    assert f[..|f| - 3] == "a.mdx";
  }

  /** In `a.mdx.md` the first `.md` starts at index 1. */
  lemma FirstMarkdownOfMdx()
    ensures IndexOf("a.mdx.md", MarkdownExtension) == Some(1)
  {
    var f := "a.mdx.md";
    assert OccursAt(f, MarkdownExtension, 1);
    assert f[0..3][0] == 'a' != MarkdownExtension[0];
  }

  /** When the only `.md` in the name is its extension, both derivations
      agree; and the name always matches the sidecar's stem. */
  lemma AgentNameAgrees(file: string, target: string)
    requires EndsWith(file, MarkdownExtension) && |file| > |MarkdownExtension|
    requires forall j: nat :: j + |MarkdownExtension| < |file| ==> !OccursAt(file, MarkdownExtension, j)
    ensures AgentNameAsWritten(file) == AgentName(file)
    ensures AgentSidecarName(file, target) == AgentName(file) + "." + target + YamlExtension
  {
    var n := |file| - |MarkdownExtension|;
    assert OccursAt(file, MarkdownExtension, n);
    assert IndexOf(file, MarkdownExtension) == Some(n);
    assert file[n + |MarkdownExtension|..] == "";
  }

  /** The layer of defaults: every agent is a background agent except `pm`. */
  function AgentDefaults(name: string): Frontmatter {
    if name == PmAgent then PmAgentFrontmatter else DefaultAgentFrontmatter
  }

  /** The identity layer: `name` and `description` from the source header,
      falling back when the source value is falsy. Nothing else of the source
      header is taken. */
  function AgentIdentity(name: string, source: Frontmatter): Frontmatter {
    map[
      "name" := Or(Get(source, "name"), Str(name)),
      "description" := Or(Get(source, "description"), Str(name + " agent for specialized tasks"))
    ]
  }

  /** `{...defaults, name, description, ...sidecar}`: the four default and
      identity keys plus the sidecar's, the sidecar winning each of its keys. */
  function AgentFrontmatter(name: string, source: Frontmatter, sidecar: Frontmatter): (r: Frontmatter)
    ensures r.Keys == {"model", "is_background", "name", "description"} + sidecar.Keys
    ensures forall k :: k in sidecar ==> r[k] == sidecar[k]
  {
    var d, c := AgentDefaults(name), AgentIdentity(name, source);
    MergeLayersThree(d, c, sidecar);
    assert d.Keys == {"model", "is_background"} && c.Keys == {"name", "description"};
    MergeLayers([d, c, sidecar])
  }

  /** The header of an agent: the sidecar wins every key it has; otherwise the
      model is `inherit`, only `pm` runs in the foreground, and the name and
      description come from the source when truthy. No other source key
      survives. */
  lemma AgentFrontmatterSpec(name: string, source: Frontmatter, sidecar: Frontmatter)
    ensures var r := AgentFrontmatter(name, source, sidecar);
      && r.Keys == {"model", "is_background", "name", "description"} + sidecar.Keys
      && (forall k :: k in sidecar ==> r[k] == sidecar[k])
      && ("model" !in sidecar ==> r["model"] == Str("inherit"))
      && ("is_background" !in sidecar ==> r["is_background"] == Bool(name != PmAgent))
      && ("name" !in sidecar ==>
            r["name"] == if "name" in source && Truthy(source["name"]) then source["name"] else Str(name))
      && ("description" !in sidecar ==>
            r["description"] == if "description" in source && Truthy(source["description"])
                                then source["description"]
                                else Str(name + " agent for specialized tasks"))
  {
    var d, c := AgentDefaults(name), AgentIdentity(name, source);
    MergeLayersThree(d, c, sidecar);
    assert d["model"] == Str("inherit") && d["is_background"] == Bool(name != PmAgent);
  }

  /** One agent file's output. A directory in its place, an unparsable header
      or sidecar stops the build. */
  function AgentOutput(file: string, dir: map<string, Node>, ext: Externals): (r: Result<Node, BuildError>)
    requires file in dir
    ensures r.Ok? <==>
              && dir[file].File?
              && ext.parseMatter(dir[file].text).Some?
              && LoadSidecar(dir, AgentSidecarName(file, RemoteTargetName),
                             [AgentsDir, AgentSidecarName(file, RemoteTargetName)], ext).Ok?
    ensures r.Ok? ==>
              var doc := ext.parseMatter(dir[file].text).value;
              var sidecar := LoadSidecar(dir, AgentSidecarName(file, RemoteTargetName),
                                         [AgentsDir, AgentSidecarName(file, RemoteTargetName)], ext).value;
              r.value == File(ext.stringifyMatter(Document(
                AgentFrontmatter(AgentName(file), doc.frontmatter, sidecar), doc.body)))
  {
    var path := [AgentsDir, file];
    match dir[file]
    case Dir(_) => Err(NotAFile(path))
    case File(text) =>
      match ext.parseMatter(text)
      case None => Err(BadFrontmatter(path))
      case Some(doc) =>
        var sidecarName := AgentSidecarName(file, RemoteTargetName);
        match LoadSidecar(dir, sidecarName, [AgentsDir, sidecarName], ext)
        case Err(e) => Err(e)
        case Ok(sidecar) =>
          Ok(File(ext.stringifyMatter(Document(AgentFrontmatter(AgentName(file), doc.frontmatter, sidecar), doc.body))))
  }

  /** Where `.md` occurs only as the extension, the rewritten agent is the one
      the build script writes with its own name derivation. */
  lemma AgentOutputAsWritten(file: string, dir: map<string, Node>, ext: Externals)
    requires file in dir && EndsWith(file, MarkdownExtension) && |file| > |MarkdownExtension|
    requires forall j: nat :: j + |MarkdownExtension| < |file| ==> !OccursAt(file, MarkdownExtension, j)
    ensures AgentOutput(file, dir, ext).Ok? ==>
              var doc := ext.parseMatter(dir[file].text).value;
              var sidecar := LoadSidecar(dir, AgentSidecarName(file, RemoteTargetName),
                                         [AgentsDir, AgentSidecarName(file, RemoteTargetName)], ext).value;
              AgentOutput(file, dir, ext).value == File(ext.stringifyMatter(Document(
                AgentFrontmatter(AgentNameAsWritten(file), doc.frontmatter, sidecar), doc.body)))
  {
    AgentNameAgrees(file, RemoteTargetName);
  }

  /** The `.md` entries of a directory (files or not: the listing does not
      look). */
  function MarkdownEntries(dir: map<string, Node>): (names: set<string>)
    ensures forall f :: f in names <==> f in dir && EndsWith(f, MarkdownExtension)
  {
    set f | f in dir && EndsWith(f, MarkdownExtension)
  }

  /** The agents of a source root with their outcomes. */
  function AgentResults(src: map<string, Node>, ext: Externals)
    : (r: Result<map<string, Result<Node, BuildError>>, BuildError>)
    ensures AgentsDir !in src ==> r == Ok(map[])
    ensures AgentsDir in src && src[AgentsDir].File? ==> r == Err(NotADirectory([AgentsDir]))
    ensures r.Ok? && AgentsDir in src ==> r.value.Keys == MarkdownEntries(src[AgentsDir].children)
  {
    if AgentsDir !in src then Ok(map[])
    else match src[AgentsDir]
      case File(_) => Err(NotADirectory([AgentsDir]))
      case Dir(c) => Ok(map f | f in MarkdownEntries(c) :: AgentOutput(f, c, ext))
  }

  /** `copyAgents`: fills the freshly cleaned `agents/` output directory. */
  method CopyAgents(src: map<string, Node>, out: OutputDir, ext: Externals) returns (r: Result<(), BuildError>)
    requires AgentsDir in out.entries && out.entries[AgentsDir] == Dir(map[])
    modifies out
    ensures DirBuilt(r, old(out.entries), out.entries, AgentsDir, AgentResults(src, ext))
  {
    if AgentsDir !in src {
      return Ok(());
    }
    if src[AgentsDir].File? {
      return Err(NotADirectory([AgentsDir]));
    }
    var c := src[AgentsDir].children;
    r := FillDir(out, AgentsDir, map f | f in MarkdownEntries(c) :: AgentOutput(f, c, ext));
  }

  /** A command is copied as it is; `cpSync` without `recursive` refuses a
      directory. */
  function CommandOutput(file: string, node: Node): (r: Result<Node, BuildError>)
    ensures r.Ok? <==> node.File?
    ensures r.Ok? ==> r.value == node
  {
    match node
    case Dir(_) => Err(NotAFile([CommandsDir, file]))
    case File(_) => Ok(node)
  }

  /** The commands of a source root with their outcomes. */
  function CommandResults(src: map<string, Node>): (r: Result<map<string, Result<Node, BuildError>>, BuildError>)
    ensures CommandsDir !in src ==> r == Ok(map[])
    ensures CommandsDir in src && src[CommandsDir].File? ==> r == Err(NotADirectory([CommandsDir]))
    ensures r.Ok? && CommandsDir in src ==> r.value.Keys == MarkdownEntries(src[CommandsDir].children)
  {
    if CommandsDir !in src then Ok(map[])
    else match src[CommandsDir]
      case File(_) => Err(NotADirectory([CommandsDir]))
      case Dir(c) => Ok(map f | f in MarkdownEntries(c) :: CommandOutput(f, c[f]))
  }

  /** `copyCommands`: fills the freshly cleaned `commands/` output directory. */
  method CopyCommands(src: map<string, Node>, out: OutputDir) returns (r: Result<(), BuildError>)
    requires CommandsDir in out.entries && out.entries[CommandsDir] == Dir(map[])
    modifies out
    ensures DirBuilt(r, old(out.entries), out.entries, CommandsDir, CommandResults(src))
  {
    if CommandsDir !in src {
      return Ok(());
    }
    if src[CommandsDir].File? {
      return Err(NotADirectory([CommandsDir]));
    }
    var c := src[CommandsDir].children;
    r := FillDir(out, CommandsDir, map f | f in MarkdownEntries(c) :: CommandOutput(f, c[f]));
  }
}
