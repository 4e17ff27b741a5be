/** The skill copy shared by the remote and gemini targets: each source skill
    directory becomes an output directory holding `SKILL.md` with merged
    frontmatter and the target's side directories copied verbatim. */
module Skills {

  import opened Values
  import opened Merge
  import opened Version
  import opened FileTree
  import opened Sidecar

  const SkillsDir := "skills"
  const SkillFile := "SKILL.md"

  /** What distinguishes one target's skill output from another's: the
      sidecar's target name, the side directories copied, and the version
      stamped last (if the target stamps one). */
  datatype SkillTarget = SkillTarget(name: string, sideDirs: set<string>, stamp: Option<string>)

  /** The remote target copies `assets` too and stamps no version. */
  const RemoteSkillTarget := SkillTarget("remote", {"references", "scripts", "assets"}, None)

  /** The gemini target copies no `assets` and stamps the package version. */
  function GeminiSkillTarget(version: string): SkillTarget {
    SkillTarget("gemini", {"references", "scripts"}, Some(version))
  }

  /** `SKILL.md` is not one of the side directories of either target. */
  lemma SkillFileIsNotSideDir(version: string)
    ensures SkillFile !in RemoteSkillTarget.sideDirs && SkillFile !in GeminiSkillTarget(version).sideDirs
  {
    assert SkillFile[0] == 'S';
    assert forall d :: d in RemoteSkillTarget.sideDirs ==> d[0] != 'S';
  }

  /** `{...base, ...sidecar}`, then the version stamp if the target has one:
      the keys of both layers (and `version`), with a stamp that nothing
      overrides. */
  function SkillFrontmatter(t: SkillTarget, base: Frontmatter, sidecar: Frontmatter): (r: Frontmatter)
    ensures r.Keys == base.Keys + sidecar.Keys + if t.stamp.Some? then {VersionKey} else {}
    ensures t.stamp.Some? ==> r[VersionKey] == Str(t.stamp.value)
    ensures t.stamp.None? ==> forall k :: k in sidecar ==> r[k] == sidecar[k]
  {
    var merged := Overlay(base, sidecar);
    if t.stamp.Some? then InjectVersion(merged, t.stamp.value) else merged
  }

  /** Precedence of a skill header: the stamp beats everything, the sidecar
      beats the base, and no other key appears. */
  lemma SkillFrontmatterPrecedence(t: SkillTarget, base: Frontmatter, sidecar: Frontmatter, k: string)
    ensures var r := SkillFrontmatter(t, base, sidecar);
      && (k in r <==> k in base || k in sidecar || (t.stamp.Some? && k == VersionKey))
      && (t.stamp.Some? && k == VersionKey ==> r[k] == Str(t.stamp.value))
      && (!(t.stamp.Some? && k == VersionKey) && k in sidecar ==> r[k] == sidecar[k])
      && (!(t.stamp.Some? && k == VersionKey) && k !in sidecar && k in base ==> r[k] == base[k])
  {
  }

  /** The output `SKILL.md`, if the source has one: its body, under the given
      header. A directory in its place or an unparsable header stops the
      build. */
  function RenderSkillFile(dir: map<string, Node>, fm: Frontmatter, path: Path, ext: Externals)
    : Result<Option<Node>, BuildError>
  {
    if SkillFile !in dir then Ok(None)
    else match dir[SkillFile]
      case Dir(_) => Err(NotAFile(path + [SkillFile]))
      case File(text) =>
        match ext.parseMatter(text)
        case None => Err(BadFrontmatter(path + [SkillFile]))
        case Some(doc) => Ok(Some(File(ext.stringifyMatter(Document(fm, doc.body)))))
  }

  /** The side directories (or files) of a skill that the target copies. */
  function SideCopies(t: SkillTarget, dir: map<string, Node>): map<string, Node> {
    map d | d in t.sideDirs && d in dir :: dir[d]
  }

  /** One skill's output directory, built from the source directory `dir`. */
  function SkillOutput(t: SkillTarget, skill: string, dir: map<string, Node>, ext: Externals)
    : (r: Result<Node, BuildError>)
    ensures r.Ok? ==> r.value.Dir?
    // `SKILL.md` is written exactly when the source has one ...
    ensures r.Ok? ==> (SkillFile in r.value.children <==> SkillFile in dir)
    // ... with the source body under the merged header
    ensures r.Ok? && SkillFile in dir ==>
              && dir[SkillFile].File?
              && ext.parseMatter(dir[SkillFile].text).Some?
              && LoadSidecar(dir, SkillSidecarName(t.name), [SkillsDir, skill, SkillSidecarName(t.name)], ext).Ok?
              && r.value.children[SkillFile] == File(ext.stringifyMatter(Document(
                   SkillFrontmatter(t, ext.loadSkillFrontmatter(dir),
                     LoadSidecar(dir, SkillSidecarName(t.name), [SkillsDir, skill, SkillSidecarName(t.name)], ext).value),
                   ext.parseMatter(dir[SkillFile].text).value.body)))
    // every other entry is a verbatim copy of a side directory the source has
    ensures r.Ok? ==> forall d :: d != SkillFile ==>
              (d in r.value.children <==> d in t.sideDirs && d in dir)
    ensures r.Ok? ==> forall d :: d != SkillFile && d in r.value.children ==> r.value.children[d] == dir[d]
    // the build fails only on an unreadable sidecar or SKILL.md
    ensures r.Err? <==>
              || LoadSidecar(dir, SkillSidecarName(t.name), [SkillsDir, skill, SkillSidecarName(t.name)], ext).Err?
              || (SkillFile in dir && (dir[SkillFile].Dir? || ext.parseMatter(dir[SkillFile].text).None?))
  {
    var path := [SkillsDir, skill];
    var sidecarName := SkillSidecarName(t.name);
    match LoadSidecar(dir, sidecarName, path + [sidecarName], ext)
    case Err(e) => Err(e)
    case Ok(sidecar) =>
      var fm := SkillFrontmatter(t, ext.loadSkillFrontmatter(dir), sidecar);
      match RenderSkillFile(dir, fm, path, ext)
      case Err(e) => Err(e)
      case Ok(md) =>
        Ok(Dir(SideCopies(t, dir) + if md.Some? then map[SkillFile := md.value] else map[]))
  }

  /** The skills of a source root: every directory under `skills/`, each with
      its outcome. No `skills/` means no skills; a file in its place cannot be
      listed and stops the build. */
  function SkillResults(t: SkillTarget, src: map<string, Node>, ext: Externals)
    : (r: Result<map<string, Result<Node, BuildError>>, BuildError>)
    ensures SkillsDir !in src ==> r == Ok(map[])
    ensures SkillsDir in src && src[SkillsDir].File? ==> r == Err(NotADirectory([SkillsDir]))
    ensures r.Ok? && SkillsDir in src ==>
              forall s :: s in r.value <==> s in src[SkillsDir].children && src[SkillsDir].children[s].Dir?
  {
    if SkillsDir !in src then Ok(map[])
    else match src[SkillsDir]
      case File(_) => Err(NotADirectory([SkillsDir]))
      case Dir(c) => Ok(map s | s in c && c[s].Dir? :: SkillOutput(t, s, c[s].children, ext))
  }

  /** A listed skill is a directory of the source's `skills/`, built by
      `SkillOutput` from that directory. */
  lemma ListedSkill(t: SkillTarget, src: map<string, Node>, ext: Externals, s: string)
    requires SkillResults(t, src, ext).Ok? && s in SkillResults(t, src, ext).value
    ensures SkillsDir in src && src[SkillsDir].Dir? && s in src[SkillsDir].children
    ensures src[SkillsDir].children[s].Dir?
    ensures SkillResults(t, src, ext).value[s] == SkillOutput(t, s, src[SkillsDir].children[s].children, ext)
  {
  }

  /** A built skill holds `SKILL.md` and the target's side directories the
      source skill has, copied unchanged, and nothing else. */
  lemma BuiltSkillShape(t: SkillTarget, src: map<string, Node>, ext: Externals, s: string)
    requires SkillResults(t, src, ext).Ok? && s in SkillResults(t, src, ext).value
    requires SkillResults(t, src, ext).value[s].Ok?
    ensures SkillsDir in src && src[SkillsDir].Dir? && s in src[SkillsDir].children
    ensures src[SkillsDir].children[s].Dir?
    ensures var skill, dir := SkillResults(t, src, ext).value[s].value, src[SkillsDir].children[s].children;
      && skill.Dir?
      && (SkillFile in skill.children <==> SkillFile in dir)
      && (forall d :: d in skill.children ==> d == SkillFile || d in t.sideDirs)
      && (forall d :: d in t.sideDirs && d != SkillFile ==>
            (d in skill.children <==> d in dir) && (d in dir ==> skill.children[d] == dir[d]))
  {
    ListedSkill(t, src, ext, s);
  }

  /** `copySkills`: fills the freshly cleaned `skills/` output directory. */
  method CopySkills(t: SkillTarget, src: map<string, Node>, out: OutputDir, ext: Externals)
    returns (r: Result<(), BuildError>)
    requires SkillsDir in out.entries && out.entries[SkillsDir] == Dir(map[])
    modifies out
    ensures DirBuilt(r, old(out.entries), out.entries, SkillsDir, SkillResults(t, src, ext))
  {
    if SkillsDir !in src {
      return Ok(());
    }
    if src[SkillsDir].File? {
      return Err(NotADirectory([SkillsDir]));
    }
    var c := src[SkillsDir].children;
    r := FillDir(out, SkillsDir, map s | s in c && c[s].Dir? :: SkillOutput(t, s, c[s].children, ext));
  }
}
