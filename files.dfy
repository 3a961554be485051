/**
 * A directory tree as `os.walk(top, topdown=True)` walks it. The tree is the
 * state of the disk at the start of the walk; listing order is the order of
 * `files` and `subdirs`.
 */
module FileTree {
  import opened TextUtil

  datatype Dir = Dir(name: string, files: seq<string>, subdirs: seq<Dir>)

  /** One tuple of the walk: the directory's path, its path relative to `top`, the files the loop sees. */
  datatype Visit = Visit(root: string, rel: string, files: seq<string>)

  function Flatten<T>(xss: seq<seq<T>>): seq<T>
    decreases |xss|
  {
    if xss == [] then [] else xss[0] + Flatten(xss[1..])
  }

  /** The character a backslash-to-slash replacement puts in place of `c`. */
  function Slash(c: char): char {
    if c == '\\' then '/' else c
  }

  /** `path.replace("\\", "/")`, character by character. */
  function Norm(path: string): (r: string)
    ensures |r| == |path|
  {
    if path == [] then [] else [Slash(path[0])] + Norm(path[1..])
  }

  /** The character map is Python's left-to-right replacement of the one-character pattern. */
  lemma {:induction false} NormReplaces(path: string)
    ensures Norm(path) == ReplaceAll(path, "\\", "/")
  {
    if path != [] {
      NormReplaces(path[1..]);
      assert path[..1] == [path[0]];
    }
  }

  /** Every directory under `d`, `d` first, subdirectories in listing order, nothing pruned. */
  function Walk(path: string, rel: string, d: Dir): (vs: seq<Visit>)
    ensures vs != [] && vs[0] == Visit(path, rel, d.files)
    decreases d
  {
    [Visit(path, rel, d.files)] +
    Flatten(seq(|d.subdirs|, i requires 0 <= i < |d.subdirs| =>
      Walk(PathJoin(path, d.subdirs[i].name), PathJoin(rel, d.subdirs[i].name), d.subdirs[i])))
  }
}
