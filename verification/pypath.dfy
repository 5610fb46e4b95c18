/** The two `os.path` operations the services use, with POSIX semantics. */
module PyPath {

  /** `s.rfind(c)`: the last index holding `c`, or -1. */
  function RFind(s: string, c: char): (i: int)
    ensures -1 <= i < |s|
    ensures i >= 0 ==> s[i] == c
    ensures forall k :: i < k < |s| ==> s[k] != c
  {
    if s == [] then -1
    else if s[|s| - 1] == c then |s| - 1
    else RFind(s[..|s| - 1], c)
  }

  /** Some character other than '.' lies in `s[lo..hi]`. */
  predicate HasNonDot(s: string, lo: int, hi: int)
    requires 0 <= lo && hi <= |s|
  {
    exists k :: lo <= k < hi && s[k] != '.'
  }

  /** `os.path.splitext(p)`: the extension starts at the last '.' of the
      last path component, provided that component has some character
      other than '.' before it (leading dots do not start an extension). */
  function Splitext(p: string): (r: (string, string))
    ensures r.0 + r.1 == p
  {
    var sepIndex := RFind(p, '/');
    var dotIndex := RFind(p, '.');
    if dotIndex > sepIndex && HasNonDot(p, sepIndex + 1, dotIndex) then
      (p[..dotIndex], p[dotIndex..])
    else
      (p, [])
  }

  /** The root of `os.path.splitext(p)`. */
  function Stem(p: string): string {
    Splitext(p).0
  }

  /** The extension is empty, or one '.' followed by neither '.' nor '/'. */
  lemma ExtensionShape(p: string)
    ensures var ext := Splitext(p).1;
      ext == [] || (ext[0] == '.' && '.' !in ext[1..] && '/' !in ext)
  {
    var ext := Splitext(p).1;
    if ext != [] {
      var d := RFind(p, '.');
      assert ext == p[d..];
      assert forall k :: 1 <= k < |ext| ==> ext[k] == p[d + k];
    }
  }

  /** The last path component has a '.' after some character other than
      '.': the condition under which `splitext` finds an extension. */
  predicate HasExtension(p: string) {
    exists i, j :: RFind(p, '/') < i < j < |p| && p[i] != '.' && p[j] == '.'
  }

  /** A '.' after a non-dot in the last component starts an extension, and
      the extension is everything from the last '.' on. */
  lemma SplitextFindsExtension(p: string, i: int, j: int)
    requires RFind(p, '/') < i < j < |p| && p[i] != '.' && p[j] == '.'
    ensures RFind(p, '/') < RFind(p, '.')
    ensures Splitext(p) == (p[..RFind(p, '.')], p[RFind(p, '.')..])
    ensures Splitext(p).1 != []
  {
    var d := RFind(p, '.');
    assert j <= d;
    assert HasNonDot(p, RFind(p, '/') + 1, d);
  }

  /** A last component made of leading dots followed by a part without
      '.' has no extension. */
  lemma SplitextNoExtension(p: string)
    requires forall i, j :: RFind(p, '/') < i < j < |p| && p[i] != '.' ==> p[j] != '.'
    ensures Splitext(p) == (p, [])
  {
    var sep := RFind(p, '/');
    var d := RFind(p, '.');
    if d > sep {
      forall k | sep + 1 <= k < d
        ensures p[k] == '.'
      {
        assert p[d] == '.';
      }
    }
  }

  /** `splitext` splits off an extension exactly when the last component
      has a '.' after a non-dot, and then it is the suffix from the last
      '.'; otherwise the root is the whole path. */
  lemma SplitextExact(p: string)
    ensures Splitext(p).1 != [] <==> HasExtension(p)
    ensures HasExtension(p) ==> Splitext(p) == (p[..RFind(p, '.')], p[RFind(p, '.')..])
    ensures !HasExtension(p) ==> Splitext(p) == (p, [])
  {
    if HasExtension(p) {
      var i, j :| RFind(p, '/') < i < j < |p| && p[i] != '.' && p[j] == '.';
      SplitextFindsExtension(p, i, j);
    } else {
      SplitextNoExtension(p);
    }
  }

  /** A last path component without '.' has no extension. */
  lemma NoExtensionAfterSlash(p: string, j: nat)
    requires j < |p| && p[j] == '/'
    requires forall k :: j < k < |p| ==> p[k] != '.'
    ensures Splitext(p) == (p, [])
  {
    var sep := RFind(p, '/');
    var d := RFind(p, '.');
    assert j <= sep;
    assert d < j;
  }

  /** The root keeps every '/' of the path, so the directory part is
      never cut. */
  lemma StemKeepsDirectories(p: string)
    ensures '/' in p ==> '/' in Stem(p)
  {
    var sep := RFind(p, '/');
    if '/' in p {
      assert sep >= 0;
      var d := RFind(p, '.');
      if d > sep && HasNonDot(p, sep + 1, d) {
        assert Stem(p)[sep] == '/';
      }
    }
  }

  /** `os.path.join(a, b)` for two components: an absolute `b` replaces
      `a`; otherwise one '/' separates them unless `a` is empty or already
      ends in '/'. */
  function Join(a: string, b: string): (r: string)
    ensures b != [] && b[0] == '/' ==> r == b
    ensures (b == [] || b[0] != '/') && a != [] && a[|a| - 1] != '/' ==> r == a + "/" + b
    ensures (b == [] || b[0] != '/') && (a == [] || a[|a| - 1] == '/') ==> r == a + b
  {
    if b != [] && b[0] == '/' then b
    else if a == [] || a[|a| - 1] == '/' then a + b
    else a + "/" + b
  }
}
