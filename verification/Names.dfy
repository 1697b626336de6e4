/** File names: stem and suffix as pathlib splits them, and the names derived from them. */
module Names {
  import opened Basics

  /** Index of the last occurrence of `c`, or -1. */
  function LastIndexOf(s: string, c: char): (k: int)
    ensures -1 <= k < |s|
    ensures k >= 0 ==> s[k] == c
    ensures forall j :: k < j < |s| ==> s[j] != c
  {
    if s == "" then -1
    else if s[|s| - 1] == c then |s| - 1
    else LastIndexOf(s[..|s| - 1], c)
  }

  /** Where the suffix starts: at the last dot, unless it leads or ends the name. */
  function SuffixStart(name: string): (k: nat)
    ensures k <= |name|
  {
    var dot := LastIndexOf(name, '.');
    if 0 < dot < |name| - 1 then dot else |name|
  }

  function Stem(name: string): string { name[..SuffixStart(name)] }

  function Suffix(name: string): string { name[SuffixStart(name)..] }

  function Prefix(s: string, n: nat): string { if |s| <= n then s else s[..n] }

  function DirectoryPart(path: Path): Path { path[..LastIndexOf(path, '/') + 1] }

  function NamePart(path: Path): string { path[LastIndexOf(path, '/') + 1..] }

  /** The name commit_staged falls back to when other bytes sit at the destination. */
  function CollisionName(path: Path, digest: Digest): Path {
    var name := NamePart(path);
    DirectoryPart(path) + Stem(name) + ".mnema-" + Prefix(digest, 12) + Suffix(name)
  }

  // ----- What the names are made of -----

  /** The parts of a path as pathlib takes it apart: a directory up to the last slash, and a name whose
      suffix starts at its last dot, unless that dot leads or ends the name. */
  predicate Parts(path: Path, dir: Path, stem: string, suffix: string) {
    && path == dir + stem + suffix
    && (dir == "" || dir[|dir| - 1] == '/')
    && '/' !in stem && '/' !in suffix
    && if suffix == "" then stem == "" || stem[|stem| - 1] == '.' || '.' !in stem[1..]
       else stem != "" && suffix[0] == '.' && |suffix| > 1 && '.' !in suffix[1..]
  }

  lemma LastIndexIs(s: string, c: char, k: int)
    requires -1 <= k < |s| && (k >= 0 ==> s[k] == c) && forall j :: k < j < |s| ==> s[j] != c
    ensures LastIndexOf(s, c) == k
  {
  }

  lemma DirectoryOf(path: Path, dir: Path, name: string)
    requires path == dir + name && (dir == "" || dir[|dir| - 1] == '/') && '/' !in name
    ensures DirectoryPart(path) == dir && NamePart(path) == name
  {
    LastIndexIs(path, '/', |dir| - 1);
  }

  lemma SuffixOf(stem: string, suffix: string)
    requires suffix != "" && stem != "" && suffix[0] == '.' && |suffix| > 1 && '.' !in suffix[1..]
    ensures Stem(stem + suffix) == stem && Suffix(stem + suffix) == suffix
  {
    assert forall j :: 0 < j < |suffix| ==> suffix[1..][j - 1] == suffix[j];
    LastIndexIs(stem + suffix, '.', |stem|);
  }

  lemma NoSuffix(stem: string)
    requires stem == "" || stem[|stem| - 1] == '.' || '.' !in stem[1..]
    ensures Stem(stem) == stem && Suffix(stem) == ""
  {
    assert forall j :: 0 < j < |stem| ==> stem[1..][j - 1] == stem[j];
  }

  lemma PartsOf(path: Path, dir: Path, stem: string, suffix: string)
    requires Parts(path, dir, stem, suffix)
    ensures DirectoryPart(path) == dir && NamePart(path) == stem + suffix
    ensures Stem(stem + suffix) == stem && Suffix(stem + suffix) == suffix
  {
    hide DirectoryPart, NamePart, Stem, Suffix;
    assert path == dir + (stem + suffix);
    DirectoryOf(path, dir, stem + suffix);
    if suffix == "" {
      NoSuffix(stem);
      assert stem + suffix == stem;
    } else {
      SuffixOf(stem, suffix);
    }
  }

  /** The collision name stays in the directory and keeps stem and suffix, with the first twelve characters of
      the digest between them. */
  lemma CollisionNameKeepsParts(path: Path, dir: Path, stem: string, suffix: string, digest: Digest)
    requires Parts(path, dir, stem, suffix)
    ensures CollisionName(path, digest) ==
            dir + stem + ".mnema-" + (if |digest| <= 12 then digest else digest[..12]) + suffix
  {
    hide DirectoryPart, NamePart, Stem, Suffix, Parts;
    PartsOf(path, dir, stem, suffix);
  }

  /** For one path, digests that differ in their first twelve characters have different names. */
  lemma CollisionNamesDiffer(path: Path, digest: Digest, other: Digest)
    requires CollisionName(path, digest) == CollisionName(path, other)
    ensures if |digest| < 12 || |other| < 12 then digest == other else digest[..12] == other[..12]
  {
    hide DirectoryPart, NamePart, Stem, Suffix;
    var head := DirectoryPart(path) + Stem(NamePart(path)) + ".mnema-";
    var tail := Suffix(NamePart(path));
    var p, q := Prefix(digest, 12), Prefix(other, 12);
    assert CollisionName(path, digest) == head + p + tail && CollisionName(path, other) == head + q + tail;
    assert (head + p + tail)[|head|..|head| + |p|] == p && (head + q + tail)[|head|..|head| + |q|] == q;
  }

  /** The name an item gets among its siblings when the plain one is taken. */
  function Suffixed(name: string, suffix: string): string {
    Stem(name) + "-" + suffix + Suffix(name)
  }

  lemma SuffixedKeepsParts(name: string, stem: string, suffix: string, extra: string)
    requires Parts(name, "", stem, suffix)
    ensures Suffixed(name, extra) == stem + "-" + extra + suffix
  {
    hide DirectoryPart, NamePart, Stem, Suffix, Parts;
    PartsOf(name, "", stem, suffix);
    assert name == stem + suffix by { PartsJoin(name, stem, suffix); }
  }

  lemma PartsJoin(name: string, stem: string, suffix: string)
    requires Parts(name, "", stem, suffix)
    ensures name == stem + suffix
  {
    assert "" + stem + suffix == stem + suffix;
  }
}
