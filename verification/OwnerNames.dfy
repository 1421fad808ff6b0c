/** Canonical owner names: the one lookup every rollup performs
    (`internal/stats/stats.go`, `internal/archive/archive.go`). */
module OwnerNames {
  import opened Text

  type Aliases = map<string, string>

  /** An alias map on which one lookup finds the canonical name: all names are
      clean and non-empty, and a canonical name is not an alias of another. */
  ghost predicate Flat(m: Aliases) {
    && (forall k :: k in m ==> IsClean(k) && k != "" && IsClean(m[k]) && m[k] != "")
    && (forall k, c :: k in m && c in m && m[k] == c ==> m[c] == c)
  }

  /** `normalizeOwner` of package stats. */
  function NormalizeOwner(owner: string, aliases: Aliases): string {
    var normalized := Clean(owner);
    if normalized in aliases then Clean(aliases[normalized]) else normalized
  }

  /** `normalizeOwner` of package archive: no cleaning of the canonical name. */
  function ArchiveNormalizeOwner(owner: string, aliases: Aliases): string {
    if owner == "" then ""
    else
      var normalized := Clean(owner);
      if normalized in aliases then aliases[normalized] else normalized
  }

  /** On a flat map the two packages give one name per owner, normalising twice is
      normalising once, the name is clean, and only blank owners get the blank name. */
  lemma {:induction false} NormalizeOwnerOnFlatMap(owner: string, aliases: Aliases)
    requires Flat(aliases)
    ensures NormalizeOwner(NormalizeOwner(owner, aliases), aliases) == NormalizeOwner(owner, aliases)
    ensures ArchiveNormalizeOwner(owner, aliases) == NormalizeOwner(owner, aliases)
    ensures IsClean(NormalizeOwner(owner, aliases))
    ensures NormalizeOwner(owner, aliases) == "" <==> Clean(owner) == ""
  {
    var c := Clean(owner);
    CleanNormalForm(owner);
    CleanOfEmpty();
    if c in aliases {
      CleanNormalForm(aliases[c]);
      var v := aliases[c];
      if v in aliases {
        assert aliases[v] == v;
      }
    }
  }
}
