/** POSIX path joining as `os.path.join(a, b)` performs it for two components. */
module Paths {
  import opened Decimal

  predicate IsAbsolute(p: string) { |p| > 0 && p[0] == '/' }

  /**
   * An absolute `b` replaces `a`; otherwise `b` is appended to `a`, with a
   * `/` in between unless `a` is empty or already ends in one.
   */
  function JoinPath(a: string, b: string): (r: string)
    ensures |r| >= |b| && r[|r| - |b|..] == b
    ensures !IsAbsolute(b) ==> |r| >= |a| && r[..|a|] == a
    ensures IsAbsolute(b) ==> IsAbsolute(r)
  {
    if IsAbsolute(b) then b
    else if a == [] || a[|a| - 1] == '/' then a + b
    else a + "/" + b
  }

  /** Joining onto one directory keeps distinct names of the same kind distinct. */
  lemma JoinPathInjective(dir: string, x: string, y: string)
    requires IsAbsolute(x) == IsAbsolute(y)
    requires JoinPath(dir, x) == JoinPath(dir, y)
    ensures x == y
  {
    if !IsAbsolute(x) {
      var r := JoinPath(dir, x);
      assert |x| == |y|;
      assert x == r[|r| - |x|..] == y;
    }
  }

  /** Joining onto one directory keeps the order of names of the same kind. */
  lemma JoinPathOrder(dir: string, x: string, y: string)
    requires IsAbsolute(x) == IsAbsolute(y)
    requires LexLess(x, y)
    ensures LexLess(JoinPath(dir, x), JoinPath(dir, y))
  {
    if !IsAbsolute(x) {
      var prefix := if dir == [] || dir[|dir| - 1] == '/' then dir else dir + "/";
      assert JoinPath(dir, x) == prefix + x;
      assert JoinPath(dir, y) == prefix + y;
      LexLessPrefix(prefix, x, y);
    }
  }
}
