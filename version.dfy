/** The version stamp of build/lib/version.js. Reading the version from
    package.json is I/O and is left to the caller: the version arrives as a
    string. */
module Version {

  import opened Values
  import opened Merge

  const VersionKey := "version"

  /** `{...frontmatter, version}`: a new header equal to the old one with
      `version` set. */
  function InjectVersion(fm: Frontmatter, version: string): (r: Frontmatter)
    ensures VersionKey in r && r[VersionKey] == Str(version)
    ensures r.Keys == fm.Keys + {VersionKey}
    ensures forall k :: k in fm && k != VersionKey ==> r[k] == fm[k]
  {
    Overlay(fm, map[VersionKey := Str(version)])
  }

  /** A second stamp replaces the first, so stamping twice with the same
      version is stamping once. */
  lemma InjectVersionTwice(fm: Frontmatter, v1: string, v2: string)
    ensures InjectVersion(InjectVersion(fm, v1), v2) == InjectVersion(fm, v2)
    ensures InjectVersion(InjectVersion(fm, v1), v1) == InjectVersion(fm, v1)
  {
  }

  /** A header that already carries the stamp is a fixed point. */
  lemma InjectVersionStamped(fm: Frontmatter, v: string)
    requires VersionKey in fm && fm[VersionKey] == Str(v)
    ensures InjectVersion(fm, v) == fm
  {
  }
}
