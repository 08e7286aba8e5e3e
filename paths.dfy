/** POSIX path joining as Python's `os.path.join(a, b)` does it for two
    components. */
module Paths {

  predicate IsAbsolute(p: string) { |p| > 0 && p[0] == '/' }

  /** What `a` contributes in front of a relative component: `a` itself when
      it is empty or already ends in a separator, otherwise `a` and one '/'. */
  function DirPrefix(a: string): string
  {
    if a == [] || a[|a| - 1] == '/' then a else a + "/"
  }

  /** `os.path.join(a, b)`: an absolute `b` discards `a`; otherwise `b` is
      appended after exactly one separator. */
  function JoinPath(a: string, b: string): string
  {
    if IsAbsolute(b) then b else DirPrefix(a) + b
  }

  /** The joined path ends with `b`; for a relative `b` it starts with `a`
      and, after a non-empty `a`, a separator comes right before `b`. */
  lemma JoinPathShape(a: string, b: string)
    ensures var p := JoinPath(a, b);
            |p| >= |b| && p[|p| - |b|..] == b &&
            (!IsAbsolute(b) ==> |p| >= |a| && p[..|a|] == a) &&
            (!IsAbsolute(b) && a != [] ==> |p| > |b| && p[|p| - |b| - 1] == '/')
  {
  }

  /** Within one directory, distinct relative names give distinct paths. */
  lemma JoinRelativeInjective(a: string, b1: string, b2: string)
    requires !IsAbsolute(b1) && !IsAbsolute(b2)
    ensures JoinPath(a, b1) == JoinPath(a, b2) ==> b1 == b2
  {
    if JoinPath(a, b1) == JoinPath(a, b2) {
      var pre := DirPrefix(a);
      assert JoinPath(a, b1)[|pre|..] == b1;
      assert JoinPath(a, b2)[|pre|..] == b2;
    }
  }
}
