/** POSIX `os.path.dirname`, which `save_models` uses to decide which
    directory to create: everything up to the last `/`, with trailing `/`
    removed unless nothing but `/` is left. */
module Paths {

  /** The position just after the last `/` in `p`, or 0 when `p` has none. */
  function SepEnd(p: string): (i: nat)
    ensures i <= |p|
    ensures i > 0 ==> p[i - 1] == '/'
    ensures forall k :: i <= k < |p| ==> p[k] != '/'
  {
    if p == [] then 0
    else if p[|p| - 1] == '/' then |p|
    else SepEnd(p[..|p| - 1])
  }

  predicate AllSeps(s: string) {
    forall k :: 0 <= k < |s| ==> s[k] == '/'
  }

  /** `s.rstrip('/')` */
  function StripTrailingSeps(s: string): (r: string)
    ensures r <= s
    ensures r == [] || r[|r| - 1] != '/'
    ensures forall k :: |r| <= k < |s| ==> s[k] == '/'
  {
    if s != [] && s[|s| - 1] == '/' then StripTrailingSeps(s[..|s| - 1]) else s
  }

  /** `posixpath.dirname(p)`: a prefix of `p`, empty exactly when `p` has no
      `/` (a bare file name is written to the working directory and no
      directory is created). */
  function DirName(p: string): (r: string)
    ensures r <= p
    ensures r == [] <==> '/' !in p
  {
    var head := p[..SepEnd(p)];
    if head != [] && !AllSeps(head) then StripTrailingSeps(head) else head
  }

  /** A path `d/f` with a plain directory name `d` and a file name `f` has
      directory part `d`. */
  lemma DirNameOfFileInDir(d: string, f: string)
    requires d != [] && '/' !in d && '/' !in f
    ensures DirName(d + "/" + f) == d
  {
    var p := d + "/" + f;
    var i := SepEnd(p);
    assert p[|d|] == '/';
    assert i == |d| + 1;
    var head := p[..i];
    assert head == d + "/";
    assert head[0] == d[0] != '/';
    assert head[..|head| - 1] == d;
    assert StripTrailingSeps(head) == StripTrailingSeps(d) == d;
  }
}
