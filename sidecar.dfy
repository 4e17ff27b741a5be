/** Per-target sidecar overrides: where a document's `<base>.<target>.yaml`
    lives, and what it contributes when it is missing or empty. */
module Sidecar {

  import opened Values
  import opened Text
  import opened FileTree

  const YamlExtension := ".yaml"

  /** `SKILL.<target>.yaml`, inside the skill's directory: a `.yaml` name
      from which the target can be read back. */
  function SkillSidecarName(target: string): (name: string)
    ensures EndsWith(name, YamlExtension) && |name| == |target| + 11
    ensures name[..6] == "SKILL." && name[6..|name| - |YamlExtension|] == target
  {
    "SKILL." + target + YamlExtension
  }

  /** `<basename of the agent file without .md>.<target>.yaml`, next to it:
      the agent's stem, a dot, then the target, read back from the name. */
  function AgentSidecarName(file: string, target: string): (name: string)
    ensures var stem := Basename(file, ".md");
      && EndsWith(name, YamlExtension) && |name| == |stem| + |target| + 6
      && name[..|stem|] == stem && name[|stem|] == '.'
      && name[|stem| + 1..|name| - |YamlExtension|] == target
  {
    Basename(file, ".md") + "." + target + YamlExtension
  }

  /** Loads the sidecar `name` of a directory: a missing file, or one whose
      YAML is null, contributes the empty mapping; a directory in its place or
      a parse failure stops the build, reporting `path`. */
  function LoadSidecar(dir: map<string, Node>, name: string, path: Path, ext: Externals)
    : (r: Result<Frontmatter, BuildError>)
    ensures name !in dir ==> r == Ok(map[])
    ensures name in dir && dir[name].Dir? ==> r == Err(NotAFile(path))
    ensures name in dir && dir[name].File? ==>
              match ext.parseYaml(dir[name].text)
              case YamlNull => r == Ok(map[])
              case YamlMapping(m) => r == Ok(m)
              case YamlError => r == Err(BadYaml(path))
  {
    if name !in dir then Ok(map[])
    else match dir[name]
      case Dir(_) => Err(NotAFile(path))
      case File(text) =>
        match ext.parseYaml(text)
        case YamlError => Err(BadYaml(path))
        case YamlNull => Ok(map[])
        case YamlMapping(m) => Ok(m)
  }

  /** A sidecar name ends in `.yaml`, so it is never listed as an agent or a
      command, which are the `.md` entries of their directories. */
  lemma SidecarNamesAreNotMarkdown(file: string, target: string)
    ensures !EndsWith(SkillSidecarName(target), ".md")
    ensures !EndsWith(AgentSidecarName(file, target), ".md")
  {
    var skill, agent := SkillSidecarName(target), AgentSidecarName(file, target);
    assert skill[|skill| - 3..] == "aml";
    assert agent[|agent| - 3..] == "aml";
  }

  /** Distinct targets look for distinct skill sidecars, so one target's
      overrides never reach another. */
  lemma SkillSidecarNamesDistinct(t1: string, t2: string)
    requires t1 != t2
    ensures SkillSidecarName(t1) != SkillSidecarName(t2)
  {
    var n1, n2 := SkillSidecarName(t1), SkillSidecarName(t2);
    assert n1[6..|n1| - 5] == t1;
    assert n2[6..|n2| - 5] == t2;
  }

  /** Distinct targets look for distinct agent sidecars. */
  lemma AgentSidecarNamesDistinct(file: string, t1: string, t2: string)
    requires t1 != t2
    ensures AgentSidecarName(file, t1) != AgentSidecarName(file, t2)
  {
    var b := Basename(file, ".md");
    var n1, n2 := AgentSidecarName(file, t1), AgentSidecarName(file, t2);
    assert n1[|b| + 1..|n1| - 5] == t1;
    assert n2[|b| + 1..|n2| - 5] == t2;
  }
}
