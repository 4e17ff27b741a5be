/** The gemini target: only `skills/` is emptied and rebuilt, without
    `assets`, and every skill header is stamped with the package version. */
module GeminiTarget {

  import opened Values
  import opened Merge
  import opened Version
  import opened FileTree
  import opened Sidecar
  import opened Skills

  /** The output root after a successful build, or `None` when a skill fails:
      `skills/` holds exactly what the source produces and nothing else
      changes. */
  function GeminiOutput(src: map<string, Node>, version: string, ext: Externals, entries: map<string, Node>)
    : (r: Option<map<string, Node>>)
    ensures var skills := DirOutput(SkillResults(GeminiSkillTarget(version), src, ext));
      && (r.Some? <==> skills.Some?)
      && (r.Some? ==>
            && r.value.Keys == entries.Keys + {SkillsDir}
            && r.value[SkillsDir] == skills.value
            && forall k :: k in entries && k != SkillsDir ==> r.value[k] == entries[k])
  {
    var skills := DirOutput(SkillResults(GeminiSkillTarget(version), src, ext));
    if skills.Some? then Some(entries[SkillsDir := skills.value]) else None
  }

  /** `build`: remove and recreate `skills/`, then copy every skill. No agent,
      command or hook is written: every other entry of the output root is
      left as it was, whatever the outcome. */
  method Build(src: map<string, Node>, version: string, out: OutputDir, ext: Externals)
    returns (r: Result<(), BuildError>)
    modifies out
    ensures r.Ok? <==> GeminiOutput(src, version, ext, old(out.entries)).Some?
    ensures r.Ok? ==> out.entries == GeminiOutput(src, version, ext, old(out.entries)).value
    ensures out.entries.Keys == old(out.entries).Keys + {SkillsDir}
    ensures forall k :: k in old(out.entries) && k != SkillsDir ==> out.entries[k] == old(out.entries)[k]
  {
    ghost var before := out.entries;
    out.Recreate(SkillsDir);
    r := CopySkills(GeminiSkillTarget(version), src, out, ext);
    ReplaceTwice(before, SkillsDir, Dir(map[]), out.entries[SkillsDir]);
  }

  // ---- Properties of the output ------------------------------------------------

  /** Without a source `skills/` directory the build succeeds with an empty
      `skills/`. */
  lemma MissingSkillsDir(src: map<string, Node>, version: string, ext: Externals, entries: map<string, Node>)
    requires SkillsDir !in src
    ensures GeminiOutput(src, version, ext, entries) == Some(entries[SkillsDir := Dir(map[])])
  {
    var listing := SkillResults(GeminiSkillTarget(version), src, ext);
    assert listing == Ok(map[]);
    assert Successes(map[]) == map[];
  }

  /** Building twice gives what building once gives. */
  lemma RebuildIsIdempotent(src: map<string, Node>, version: string, ext: Externals, entries: map<string, Node>)
    requires GeminiOutput(src, version, ext, entries).Some?
    ensures var once := GeminiOutput(src, version, ext, entries).value;
      GeminiOutput(src, version, ext, once) == Some(once)
  {
    var once := GeminiOutput(src, version, ext, entries).value;
    var skills := DirOutput(SkillResults(GeminiSkillTarget(version), src, ext)).value;
    assert once[SkillsDir := skills] == once;
  }

  /** The output skills are exactly the source skill directories: none left
      over from an earlier build. */
  lemma SkillsComeFromSource(src: map<string, Node>, version: string, ext: Externals,
                             entries: map<string, Node>, s: string)
    requires GeminiOutput(src, version, ext, entries).Some?
    ensures var skills := GeminiOutput(src, version, ext, entries).value[SkillsDir];
      && skills.Dir?
      && (s in skills.children <==>
            SkillsDir in src && src[SkillsDir].Dir? && s in src[SkillsDir].children
            && src[SkillsDir].children[s].Dir?)
  {
    var listing := SkillResults(GeminiSkillTarget(version), src, ext);
    assert GeminiOutput(src, version, ext, entries).value[SkillsDir] == Dir(Successes(listing.value));
  }

  /** A gemini skill holds `SKILL.md` when the source has one, `references`
      and `scripts` copied unchanged when present, and never `assets`. */
  lemma GeminiSkillShape(src: map<string, Node>, version: string, ext: Externals,
                         entries: map<string, Node>, s: string)
    requires GeminiOutput(src, version, ext, entries).Some?
    requires s in GeminiOutput(src, version, ext, entries).value[SkillsDir].children
    ensures SkillsDir in src && src[SkillsDir].Dir? && s in src[SkillsDir].children
    ensures src[SkillsDir].children[s].Dir?
    ensures var skill, dir := GeminiOutput(src, version, ext, entries).value[SkillsDir].children[s],
                              src[SkillsDir].children[s].children;
      && skill.Dir?
      && (SkillFile in skill.children <==> SkillFile in dir)
      && (forall d :: d in skill.children ==> d == SkillFile || d in GeminiSkillTarget(version).sideDirs)
      && (forall d :: d in GeminiSkillTarget(version).sideDirs ==>
            (d in skill.children <==> d in dir) && (d in dir ==> skill.children[d] == dir[d]))
      && "assets" !in skill.children
  {
    var t := GeminiSkillTarget(version);
    var listing := SkillResults(t, src, ext);
    assert GeminiOutput(src, version, ext, entries).value[SkillsDir] == Dir(Successes(listing.value));
    assert GeminiOutput(src, version, ext, entries).value[SkillsDir].children[s] == listing.value[s].value;
    BuiltSkillShape(t, src, ext, s);
    SkillFileIsNotSideDir(version);
    assert "assets" !in t.sideDirs && "assets" != SkillFile;
  }

  /** The header written to a gemini `SKILL.md`: the base header under the
      gemini sidecar, then `version` set to the package version, over the
      source body. */
  lemma StampsVersion(src: map<string, Node>, version: string, ext: Externals,
                      entries: map<string, Node>, s: string)
    requires GeminiOutput(src, version, ext, entries).Some?
    requires s in GeminiOutput(src, version, ext, entries).value[SkillsDir].children
    requires SkillsDir in src && src[SkillsDir].Dir? && s in src[SkillsDir].children
    requires src[SkillsDir].children[s].Dir? && SkillFile in src[SkillsDir].children[s].children
    ensures var skill, dir := GeminiOutput(src, version, ext, entries).value[SkillsDir].children[s],
                              src[SkillsDir].children[s].children;
      var sidecarName := SkillSidecarName("gemini");
      && skill.Dir? && SkillFile in skill.children
      && dir[SkillFile].File? && ext.parseMatter(dir[SkillFile].text).Some?
      && LoadSidecar(dir, sidecarName, [SkillsDir, s, sidecarName], ext).Ok?
      && var base, sidecar := ext.loadSkillFrontmatter(dir), LoadSidecar(dir, sidecarName, [SkillsDir, s, sidecarName], ext).value;
      exists fm: Frontmatter ::
        && skill.children[SkillFile]
           == File(ext.stringifyMatter(Document(fm, ext.parseMatter(dir[SkillFile].text).value.body)))
        && VersionKey in fm && fm[VersionKey] == Str(version)
        && fm.Keys == base.Keys + sidecar.Keys + {VersionKey}
        && (forall k :: k in sidecar && k != VersionKey ==> fm[k] == sidecar[k])
        && (forall k :: k in base && k !in sidecar && k != VersionKey ==> fm[k] == base[k])
  {
    var t := GeminiSkillTarget(version);
    var listing := SkillResults(t, src, ext);
    var dir := src[SkillsDir].children[s].children;
    assert GeminiOutput(src, version, ext, entries).value[SkillsDir] == Dir(Successes(listing.value));
    ListedSkill(t, src, ext, s);
    var sidecarName := SkillSidecarName("gemini");
    var sidecar := LoadSidecar(dir, sidecarName, [SkillsDir, s, sidecarName], ext).value;
    var fm := SkillFrontmatter(t, ext.loadSkillFrontmatter(dir), sidecar);
    assert fm == InjectVersion(Overlay(ext.loadSkillFrontmatter(dir), sidecar), version);
  }

  /** When parsing undoes stringifying, the output `SKILL.md` parses to the
      source body under a header whose `version` is the package version. */
  lemma BodyPreserved(src: map<string, Node>, version: string, ext: Externals,
                      entries: map<string, Node>, s: string)
    requires forall d :: ext.parseMatter(ext.stringifyMatter(d)) == Some(d)
    requires GeminiOutput(src, version, ext, entries).Some?
    requires s in GeminiOutput(src, version, ext, entries).value[SkillsDir].children
    requires SkillsDir in src && src[SkillsDir].Dir? && s in src[SkillsDir].children
    requires src[SkillsDir].children[s].Dir? && SkillFile in src[SkillsDir].children[s].children
    ensures var skill, dir := GeminiOutput(src, version, ext, entries).value[SkillsDir].children[s],
                              src[SkillsDir].children[s].children;
      && skill.Dir? && SkillFile in skill.children && skill.children[SkillFile].File?
      && dir[SkillFile].File? && ext.parseMatter(dir[SkillFile].text).Some?
      && var parsed := ext.parseMatter(skill.children[SkillFile].text);
      && parsed.Some?
      && parsed.value.body == ext.parseMatter(dir[SkillFile].text).value.body
      && VersionKey in parsed.value.frontmatter && parsed.value.frontmatter[VersionKey] == Str(version)
  {
    StampsVersion(src, version, ext, entries, s);
    var skill, dir := GeminiOutput(src, version, ext, entries).value[SkillsDir].children[s],
                      src[SkillsDir].children[s].children;
    var body := ext.parseMatter(dir[SkillFile].text).value.body;
    var fm: Frontmatter :| skill.children[SkillFile] == File(ext.stringifyMatter(Document(fm, body)))
                           && VersionKey in fm && fm[VersionKey] == Str(version);
    assert ext.parseMatter(ext.stringifyMatter(Document(fm, body))) == Some(Document(fm, body));
  }

  /** Both targets enumerate the same skills: the directories under the
      source `skills/`. */
  lemma SameSkillsAsRemote(src: map<string, Node>, version: string, ext: Externals)
    ensures SkillResults(GeminiSkillTarget(version), src, ext).Ok? <==> SkillResults(RemoteSkillTarget, src, ext).Ok?
    ensures SkillResults(GeminiSkillTarget(version), src, ext).Ok? ==>
              SkillResults(GeminiSkillTarget(version), src, ext).value.Keys
              == SkillResults(RemoteSkillTarget, src, ext).value.Keys
  {
  }
}
