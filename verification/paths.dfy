/** POSIX path joining: `os.path.join` where it is `posixpath.join`. The Windows
    join (`ntpath.join`, used when `os.name == 'nt'`) is not modelled. */
module Paths {

  /** `os.path.join(a, b)`: an absolute `b` replaces `a`; otherwise exactly one '/'
      separates them (none is added after an empty `a` or one ending in '/'). */
  function Join(a: string, b: string): (r: string)
    ensures |r| >= |b| && r[|r| - |b|..] == b
    ensures |b| > 0 && b[0] == '/' ==> r == b
  {
    if |b| > 0 && b[0] == '/' then b
    else if |a| == 0 || a[|a| - 1] == '/' then a + b
    else a + "/" + b
  }

  /** What `Join(a, _)` puts in front of a relative second component. */
  function Lead(a: string): string {
    if |a| == 0 || a[|a| - 1] == '/' then a else a + "/"
  }

  /** A relative component is appended to a prefix that depends on `a` alone, so
      joining it to a fixed directory can neither merge nor split names. */
  lemma JoinRelative(a: string, b: string)
    requires |b| == 0 || b[0] != '/'
    ensures Join(a, b) == Lead(a) + b
    ensures |Join(a, b)| >= |a| + |b|
  {
  }

  /** Joining two relative names to the same directory gives distinct paths
      exactly when the names differ. */
  lemma JoinInjective(a: string, b1: string, b2: string)
    requires |b1| > 0 && b1[0] != '/' && |b2| > 0 && b2[0] != '/'
    requires Join(a, b1) == Join(a, b2)
    ensures b1 == b2
  {
    JoinRelative(a, b1);
    JoinRelative(a, b2);
    var l := Lead(a);
    assert b1 == (l + b1)[|l|..] == (l + b2)[|l|..] == b2;
  }
}
