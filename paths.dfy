/** The parts of Rust's `std::path::Path` the commands use: components, `file_name`,
    `file_stem`, `extension`, `strip_prefix`. Only `/` separates components; empty and `.`
    components are dropped, and so is the root, so an absolute path and the same path without
    its leading `/` have the same components. */
module Paths {
  import opened Wrappers
  import opened Strings

  /** `path.components()`: the non-empty, non-`.` pieces between slashes. */
  function Components(p: string): (r: seq<string>)
    ensures forall i :: 0 <= i < |r| ==> r[i] != "" && r[i] != "." && '/' !in r[i]
  {
    DropEmpty(Split(p, '/'))
  }

  function DropEmpty(parts: seq<string>): (r: seq<string>)
    requires forall i :: 0 <= i < |parts| ==> '/' !in parts[i]
    ensures forall i :: 0 <= i < |r| ==> r[i] != "" && r[i] != "." && '/' !in r[i]
    ensures |r| <= |parts|
  {
    if |parts| == 0 then []
    else if parts[0] == "" || parts[0] == "." then DropEmpty(parts[1..])
    else [parts[0]] + DropEmpty(parts[1..])
  }

  /** A component sequence written back as a path with `/`. */
  function Render(parts: seq<string>): string {
    Join(parts, "/")
  }

  /** Clean components are kept as they are. */
  lemma {:induction false} DropEmptyClean(parts: seq<string>)
    requires forall i :: 0 <= i < |parts| ==> parts[i] != "" && parts[i] != "." && '/' !in parts[i]
    ensures DropEmpty(parts) == parts
    decreases |parts|
  {
    if |parts| > 0 {
      DropEmptyClean(parts[1..]);
      assert [parts[0]] + parts[1..] == parts;
    }
  }

  /** Rendering clean components and taking the components again gives them back. */
  lemma ComponentsRender(parts: seq<string>)
    requires forall i :: 0 <= i < |parts| ==> parts[i] != "" && parts[i] != "." && '/' !in parts[i]
    ensures Components(Render(parts)) == parts
  {
    if |parts| == 0 {
      SplitNone("", '/');
    } else {
      SplitJoin(parts, '/');
      DropEmptyClean(parts);
    }
  }

  /** The index of the last `c` in `s`. */
  function LastIndexOf(s: string, c: char): (r: Option<nat>)
    ensures r.Some? ==> r.value < |s| && s[r.value] == c && c !in s[r.value + 1..]
    ensures r.None? ==> c !in s
    decreases |s|
  {
    if |s| == 0 then None
    else if s[|s| - 1] == c then Some(|s| - 1)
    else
      var r := LastIndexOf(s[..|s| - 1], c);
      assert s == s[..|s| - 1] + [s[|s| - 1]];
      r
  }

  /** `file_name()`: the last component, absent for a path with no components or ending in `..`. */
  function FileName(p: string): (r: Option<string>)
    ensures r.Some? ==> r.value != "" && r.value != ".." && '/' !in r.value
  {
    var cs := Components(p);
    if |cs| == 0 || cs[|cs| - 1] == ".." then None else Some(cs[|cs| - 1])
  }

  /** `file_stem()`: the file name up to its last `.`, unless that dot is the first character. */
  function Stem(name: string): (r: string)
    ensures |r| <= |name|
  {
    match LastIndexOf(name, '.')
    case Some(k) => if k == 0 then name else name[..k]
    case None => name
  }

  function FileStem(p: string): Option<string> {
    match FileName(p)
    case Some(n) => Some(Stem(n))
    case None => None
  }

  /** `extension()`: what follows the last `.` of the file name, when that dot is not its first
      character. */
  function ExtensionOf(name: string): (r: Option<string>)
    ensures r.Some? ==> '.' !in r.value
  {
    match LastIndexOf(name, '.')
    case Some(k) => if k == 0 then None else Some(name[k + 1..])
    case None => None
  }

  function Extension(p: string): Option<string> {
    match FileName(p)
    case Some(n) => ExtensionOf(n)
    case None => None
  }

  /** A file name and its extension put back together have the file name's stem and extension. */
  lemma {:induction false} StemAndExtension(stem: string, ext: string)
    requires stem != "" && '.' !in stem[1..] && '.' !in ext
    ensures Stem(stem + "." + ext) == stem
    ensures ExtensionOf(stem + "." + ext) == Some(ext)
  {
    var name := stem + "." + ext;
    assert name[|stem|] == '.';
    assert name[|stem| + 1..] == ext;
    assert LastIndexOf(name, '.') == Some(|stem|);
    assert name[..|stem|] == stem;
  }

  /** `strip_prefix(root)`: the components after `root`, when `root` is a prefix of `p`. */
  function StripPrefix(p: seq<string>, root: seq<string>): (r: Option<seq<string>>)
    ensures r.Some? <==> |root| <= |p| && p[..|root|] == root
    ensures r.Some? ==> root + r.value == p
  {
    if |root| <= |p| && p[..|root|] == root then
      assert root + p[|root|..] == p;
      Some(p[|root|..])
    else None
  }
}
