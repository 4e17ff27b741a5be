/** The file system as the build scripts see it. The canonical source tree is
    an immutable value (it is only read); the output directory is an object
    whose entries the build replaces in place. */
module FileTree {

  import opened Values

  /** A file with its text, or a directory with its named children. */
  datatype Node = File(text: string) | Dir(children: map<string, Node>)

  /** A path relative to the source or output root, one segment per name. */
  type Path = seq<string>

  /** A parsed document: gray-matter's `data` and `content`. */
  datatype Document = Document(frontmatter: Frontmatter, body: string)

  /** What the YAML parser makes of a sidecar file. */
  datatype YamlResult = YamlError | YamlNull | YamlMapping(mapping: Frontmatter)

  /** Why a target build stops. Each corresponds to a throw in the build
      scripts: reading a directory as a file, listing a file as a directory,
      a parse failure, or a session hook without an event name. */
  datatype BuildError =
    | NotAFile(path: Path)
    | NotADirectory(path: Path)
    | BadYaml(path: Path)
    | BadFrontmatter(path: Path)
    | MissingEvent(index: nat)

  /** The collaborators the build calls but does not define: gray-matter's
      parse and stringify, the YAML parser, and the shared skill-frontmatter
      loader, which sees the skill directory's entries. */
  datatype Externals = Externals(
    parseMatter: string -> Option<Document>,
    stringifyMatter: Document -> string,
    parseYaml: string -> YamlResult,
    loadSkillFrontmatter: map<string, Node> -> Frontmatter)

  /** An output root (a `distDir`): its entries are replaced one at a time. */
  class OutputDir {
    var entries: map<string, Node>

    /** `rmSync(dir, {recursive: true})` when it exists, then `mkdirSync(dir)`:
        afterwards `name` is an empty directory, whatever it held before. */
    method Recreate(name: string)
      modifies this
      ensures entries == old(entries)[name := Dir(map[])]
    {
      entries := entries[name := Dir(map[])];
    }

    /** Writes `node` as the entry `child` of the directory `name`. */
    method PutChild(name: string, child: string, node: Node)
      requires name in entries && entries[name].Dir?
      modifies this
      ensures entries == old(entries)[name := Dir(old(entries)[name].children[child := node])]
    {
      entries := entries[name := Dir(entries[name].children[child := node])];
    }

    /** `writeFileSync(join(distDir, name), text)`: creates or overwrites a
        file; a directory of that name cannot be written (EISDIR) and is left
        as it is. */
    method WriteFile(name: string, text: string) returns (r: Result<(), BuildError>)
      modifies this
      ensures r.Ok? <==> !(name in old(entries) && old(entries)[name].Dir?)
      ensures r.Ok? ==> entries == old(entries)[name := File(text)]
      ensures r.Err? ==> entries == old(entries) && r.error == NotAFile([name])
    {
      if name in entries && entries[name].Dir? {
        return Err(NotAFile([name]));
      }
      entries := entries[name := File(text)];
      r := Ok(());
    }
  }

  /** The outcome of a whole directory: every entry's result succeeded. */
  predicate AllOk(results: map<string, Result<Node, BuildError>>) {
    forall n :: n in results ==> results[n].Ok?
  }

  /** The successful entries of a directory's results. */
  function Successes(results: map<string, Result<Node, BuildError>>): (m: map<string, Node>)
    ensures m.Keys <= results.Keys
    ensures AllOk(results) ==> m.Keys == results.Keys
    ensures forall n :: n in m ==> results[n] == Ok(m[n])
  {
    map n | n in results && results[n].Ok? :: results[n].value
  }

  /** How a listed directory `name` of the output ends up: on success it holds
      exactly the listed entries; a failure is the listing's own or one
      entry's; no other entry of the output root changes. */
  predicate DirBuilt(r: Result<(), BuildError>, before: map<string, Node>, after: map<string, Node>,
                     name: string, listing: Result<map<string, Result<Node, BuildError>>, BuildError>)
    requires name in before
  {
    && (r.Ok? <==> listing.Ok? && AllOk(listing.value))
    && (r.Ok? ==> after == before[name := Dir(Successes(listing.value))])
    && (r.Err? && listing.Err? ==> r.error == listing.error)
    && (r.Err? && listing.Ok? ==> exists n :: n in listing.value && listing.value[n] == Err(r.error))
    && after.Keys == before.Keys
    && forall k :: k in after && k != name ==> after[k] == before[k]
  }

  /** The directory a listing produces when it and all its entries succeed. */
  function DirOutput(listing: Result<map<string, Result<Node, BuildError>>, BuildError>): Option<Node> {
    if listing.Ok? && AllOk(listing.value) then Some(Dir(Successes(listing.value))) else None
  }

  /** A directory filled with exactly one successful entry per result is the
      directory of successes, and no result failed. */
  lemma FilledIsSuccesses(results: map<string, Result<Node, BuildError>>, children: map<string, Node>)
    requires children.Keys == results.Keys
    requires forall n :: n in children ==> results[n] == Ok(children[n])
    ensures AllOk(results) && children == Successes(results)
  {
  }

  /** Replacing one entry keeps the others and the set of names. */
  lemma ReplaceFrames(before: map<string, Node>, name: string, node: Node)
    requires name in before
    ensures before[name := node].Keys == before.Keys
    ensures forall k :: k in before && k != name ==> before[name := node][k] == before[k]
  {
  }

  /** Fills the (freshly recreated, so empty) output directory `name` with one
      entry per result, in any order, stopping at the first failure. */
  method FillDir(out: OutputDir, name: string, results: map<string, Result<Node, BuildError>>)
    returns (r: Result<(), BuildError>)
    requires name in out.entries && out.entries[name] == Dir(map[])
    modifies out
    ensures r.Ok? <==> AllOk(results)
    ensures r.Ok? ==> out.entries == old(out.entries)[name := Dir(Successes(results))]
    ensures r.Err? ==> exists n :: n in results && results[n] == Err(r.error)
    ensures out.entries.Keys == old(out.entries).Keys
    ensures forall k :: k in out.entries && k != name ==> out.entries[k] == old(out.entries)[k]
  {
    ghost var before := out.entries;
    var todo := results.Keys;
    ghost var children: map<string, Node> := map[];
    while todo != {}
      invariant todo <= results.Keys
      invariant children.Keys == results.Keys - todo
      invariant forall n :: n in children ==> results[n] == Ok(children[n])
      invariant out.entries == before[name := Dir(children)]
      decreases |todo|
    {
      var n :| n in todo;
      match results[n]
      case Err(e) =>
        assert n in results && results[n] == Err(e);
        ReplaceFrames(before, name, Dir(children));
        return Err(e);
      case Ok(node) =>
        out.PutChild(name, n, node);
        ReplaceTwice(before, name, Dir(children), Dir(children[n := node]));
        children := children[n := node];
        todo := todo - {n};
    }
    FilledIsSuccesses(results, children);
    ReplaceFrames(before, name, Dir(children));
    r := Ok(());
  }
}
