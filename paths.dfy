/** `path.join(dir, name)` for a single file or directory name under a directory. */
module Paths {
  import Text

  /**
   * The name appended under `dir` with one `/` between them; an empty `dir`
   * gives the name alone. Normalisation of `.`, `..` and doubled slashes
   * inside `dir` is not modelled.
   */
  function PathJoin(dir: string, name: string): string {
    if dir == "" then name
    else if Text.EndsWith(dir, "/") then dir + name
    else dir + "/" + name
  }

  /** The joined path ends with the name and, under a non-empty directory, starts with it. */
  lemma PathJoinShape(dir: string, name: string)
    ensures Text.EndsWith(PathJoin(dir, name), name)
    ensures dir != "" ==> Text.StartsWith(PathJoin(dir, name), dir)
  {
  }

  /** Two names under the same directory give the same path only if they are the same name. */
  lemma PathJoinInjective(dir: string, a: string, b: string)
    requires PathJoin(dir, a) == PathJoin(dir, b)
    ensures a == b
  {
    PathJoinShape(dir, a);
    PathJoinShape(dir, b);
    var n := |PathJoin(dir, a)| - |a|;
    assert n == |PathJoin(dir, b)| - |b|;
    assert a == PathJoin(dir, a)[n..];
  }
}
