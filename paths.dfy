// The parts of `pathlib.PurePosixPath` the pipeline uses: `name`, `suffix`,
// `stem` and joining one component with `/`.
module Paths {
  import opened Strings

  /** `s.rfind(c)`: the last index of `c` in `s`, or -1. */
  function RFind(s: string, c: char): (r: int)
    ensures -1 <= r < |s|
    ensures r >= 0 ==> s[r] == c
    ensures forall k :: r < k < |s| ==> s[k] != c
  {
    if |s| == 0 then -1
    else if s[|s| - 1] == c then |s| - 1
    else RFind(s[..|s| - 1], c)
  }

  /** `Path(p).name`: the last component of a POSIX path, where empty components
      (repeated or trailing slashes) and `.` components do not count. */
  function BaseName(p: string): (r: string)
    ensures '/' !in r
    decreases |p|
  {
    var i := RFind(p, '/');
    if i < 0 then (if p == "." then "" else p)
    else if p[i + 1..] == "" || p[i + 1..] == "." then BaseName(p[..i])
    else p[i + 1..]
  }

  /** Where the suffix of a final component starts, if it has one: at its last
      dot, provided that dot is neither the first nor the last character. */
  function SuffixStart(name: string): (i: int)
    ensures i == -1 || (0 < i < |name| - 1 && name[i] == '.' && '.' !in name[i + 1..])
  {
    var i := RFind(name, '.');
    if 0 < i < |name| - 1 then i else -1
  }

  /** `Path(p).suffix`: empty, or a dot followed by at least one character and
      no other dot, taken from the end of the final component. */
  function Suffix(p: string): (s: string)
    ensures s == "" || (|s| >= 2 && s[0] == '.' && '.' !in s[1..])
    ensures '/' !in s
    ensures |s| <= |BaseName(p)| && BaseName(p)[|BaseName(p)| - |s|..] == s
  {
    var name := BaseName(p);
    var i := SuffixStart(name);
    if i < 0 then "" else name[i..]
  }

  /** `Path(p).stem`: the final component without its suffix, so that stem
      and suffix together give the component back. */
  function Stem(p: string): (s: string)
    ensures s + Suffix(p) == BaseName(p)
    ensures '/' !in s
  {
    var name := BaseName(p);
    var i := SuffixStart(name);
    if i < 0 then name else assert name[..i] + name[i..] == name; name[..i]
  }

  /** `Path(dir) / component` for a component without a slash: an empty
      component adds nothing. */
  function JoinPath(dir: string, component: string): string {
    if component == "" then dir else dir + "/" + component
  }

  /** A non-empty component can be read back from the joined path. */
  lemma JoinPathTail(dir: string, component: string)
    requires component != ""
    ensures JoinPath(dir, component)[|dir| + 1..] == component
  {
  }

  /** A file directly inside `dir` whose name is `stem + ext`, with a non-empty
      stem free of dots and `ext` a valid suffix, has exactly `ext` as suffix. */
  lemma SuffixOfFileName(dir: string, stem: string, ext: string)
    requires stem != "" && '.' !in stem && '/' !in stem
    requires |ext| >= 2 && ext[0] == '.' && '.' !in ext[1..] && '/' !in ext
    ensures Suffix(dir + "/" + stem + ext) == ext
  {
    var p := dir + "/" + stem + ext;
    var i := RFind(p, '/');
    assert p[|dir|] == '/';
    assert i == |dir| by {
      forall k | |dir| < k < |p| ensures p[k] != '/' {
        if k <= |dir| + |stem| { assert p[k] == stem[k - |dir| - 1]; }
        else { assert p[k] == ext[k - |dir| - 1 - |stem|]; }
      }
    }
    var name := p[i + 1..];
    assert name == stem + ext;
    assert name != "" && name != ".";
    assert BaseName(p) == name;
    var j := RFind(name, '.');
    assert name[|stem|] == '.';
    assert j == |stem| by {
      forall k | |stem| < k < |name| ensures name[k] != '.' {
        assert name[k] == ext[1..][k - |stem| - 1];
      }
    }
    assert name[j..] == ext;
  }
}
