/** Shell-style wildcard matching in the manner of `fnmatch.fnmatch` on a
    POSIX system (case-sensitive): `*` matches any run of characters,
    `?` any single character, every other character itself. */
module Glob {

  predicate Match(name: string, pat: string)
    decreases |name| + |pat|
  {
    if pat == [] then name == []
    else if pat[0] == '*' then Match(name, pat[1..]) || (name != [] && Match(name[1..], pat))
    else name != [] && (pat[0] == '?' || pat[0] == name[0]) && Match(name[1..], pat[1..])
  }

  /** A pattern without wildcards matches exactly itself. */
  lemma {:induction false} MatchLiteral(name: string, pat: string)
    requires '*' !in pat && '?' !in pat
    ensures Match(name, pat) <==> name == pat
    decreases |pat|
  {
    if pat != [] && name != [] {
      MatchLiteral(name[1..], pat[1..]);
      assert name == [name[0]] + name[1..] && pat == [pat[0]] + pat[1..];
    }
  }

  /** `*` alone matches every name. */
  lemma {:induction false} MatchStar(name: string)
    ensures Match(name, "*")
    decreases |name|
  {
    if name != [] { MatchStar(name[1..]); }
  }
}
