/**
 * Python's `str` operations that the services rely on, written out
 * explicitly: `isspace`, `strip`, `split()` (on runs of whitespace),
 * `split(sep)`, `sep.join(parts)`, `replace` of one character, `count`.
 */
module PyStr {
  import opened Wrappers

  /** `c.isspace()`: the Unicode White_Space characters plus the ASCII
      information separators U+001C..U+001F, which Python also treats as
      whitespace. */
  predicate IsSpace(c: char) {
    || c == ' '
    || ('\t' <= c <= '\r')
    || ('\U{1c}' <= c <= '\U{1f}')
    || c == '\U{85}' || c == '\U{a0}' || c == '\U{1680}'
    || ('\U{2000}' <= c <= '\U{200a}')
    || c == '\U{2028}' || c == '\U{2029}' || c == '\U{202f}'
    || c == '\U{205f}' || c == '\U{3000}'
  }

  predicate AllSpace(s: string) {
    forall i :: 0 <= i < |s| ==> IsSpace(s[i])
  }

  predicate NoSpace(s: string) {
    forall i :: 0 <= i < |s| ==> !IsSpace(s[i])
  }

  /** Neither the first nor the last character is whitespace. */
  predicate IsStripped(s: string) {
    s == [] || (!IsSpace(s[0]) && !IsSpace(s[|s| - 1]))
  }

  /** The first index at or after `i` that does not hold whitespace
      (`|s|` when there is none). */
  function SkipSpace(s: string, i: nat): (j: nat)
    requires i <= |s|
    ensures i <= j <= |s|
    ensures j < |s| ==> !IsSpace(s[j])
    decreases |s| - i
  {
    if i < |s| && IsSpace(s[i]) then SkipSpace(s, i + 1) else i
  }

  /** Everything `SkipSpace` skips is whitespace. */
  lemma {:induction false} SkipSpaceSpan(s: string, i: nat)
    requires i <= |s|
    ensures forall k :: i <= k < SkipSpace(s, i) ==> IsSpace(s[k])
    decreases |s| - i
  {
    if i < |s| && IsSpace(s[i]) {
      SkipSpaceSpan(s, i + 1);
    }
  }

  /** The first index at or after `i` that holds whitespace (`|s|` when
      there is none): the end of the word starting at `i`. */
  function SkipWord(s: string, i: nat): (j: nat)
    requires i <= |s|
    ensures i <= j <= |s|
    ensures j < |s| ==> IsSpace(s[j])
    decreases |s| - i
  {
    if i < |s| && !IsSpace(s[i]) then SkipWord(s, i + 1) else i
  }

  /** A word `SkipWord` steps over holds no whitespace. */
  lemma {:induction false} SkipWordSpan(s: string, i: nat)
    requires i <= |s|
    ensures forall k :: i <= k < SkipWord(s, i) ==> !IsSpace(s[k])
    decreases |s| - i
  {
    if i < |s| && !IsSpace(s[i]) {
      SkipWordSpan(s, i + 1);
    }
  }

  /** The end of `s[lo..hi]` once its trailing whitespace is dropped. */
  function BackSpace(s: string, lo: nat, hi: nat): (j: nat)
    requires lo <= hi <= |s|
    ensures lo <= j <= hi
    ensures forall k :: j <= k < hi ==> IsSpace(s[k])
    ensures j > lo ==> !IsSpace(s[j - 1])
    decreases hi - lo
  {
    if hi > lo && IsSpace(s[hi - 1]) then BackSpace(s, lo, hi - 1) else hi
  }

  /** `s.strip()`: the infix of `s` between its leading and its trailing
      whitespace. */
  function Strip(s: string): (r: string)
    ensures IsStripped(r)
  {
    var a := SkipSpace(s, 0);
    var b := BackSpace(s, a, |s|);
    assert a < b ==> !IsSpace(s[a]);
    SkipSpaceSpan(s, 0);
    s[a..b]
  }

  /** `s.strip()` is the infix of `s` that starts at the first
      non-whitespace character, with only whitespace before and after it. */
  lemma StripInfix(s: string)
    ensures Strip(s) == [] <==> AllSpace(s)
    ensures var r := Strip(s);
      var a := SkipSpace(s, 0);
      && a + |r| <= |s|
      && (forall k :: 0 <= k < |r| ==> r[k] == s[a + k])
      && (forall k :: 0 <= k < a ==> IsSpace(s[k]))
      && (forall k :: a + |r| <= k < |s| ==> IsSpace(s[k]))
  {
    SkipSpaceSpan(s, 0);
  }

  /** `s.strip()` as a slice of `s`, with whitespace on either side. */
  lemma StripSlice(s: string)
    ensures var a := SkipSpace(s, 0);
      && a + |Strip(s)| <= |s|
      && Strip(s) == s[a..a + |Strip(s)|]
      && AllSpace(s[..a]) && AllSpace(s[a + |Strip(s)|..])
  {
    var a := SkipSpace(s, 0);
    SkipSpaceSpan(s, 0);
    assert forall k :: 0 <= k < a ==> s[..a][k] == s[k];
    var b := BackSpace(s, a, |s|);
    assert forall k :: b <= k < |s| ==> s[b..][k - b] == s[k];
  }

  /** Whitespace before `a`, whitespace from `b` on, and no whitespace at
      either end of `s[a..b]`: then `s.strip()` is exactly `s[a..b]`. */
  lemma StripExact(s: string, a: nat, b: nat)
    requires a < b <= |s|
    requires AllSpace(s[..a]) && AllSpace(s[b..])
    requires !IsSpace(s[a]) && !IsSpace(s[b - 1])
    ensures Strip(s) == s[a..b]
  {
    StripInfix(s);
    var r := Strip(s);
    assert forall k :: 0 <= k < a ==> s[k] == s[..a][k];
    assert forall k :: b <= k < |s| ==> s[k] == s[b..][k - b];
    assert SkipSpace(s, 0) == a;
    assert r != [];
    assert r[|r| - 1] == s[a + |r| - 1];
    assert a + |r| == b;
  }

  /** Every character of `s.strip()` occurs in `s`. */
  lemma StripSubset(s: string, c: char)
    ensures c in Strip(s) ==> c in s
  {
    var r := Strip(s);
    if c in r {
      var i :| 0 <= i < |r| && r[i] == c;
      assert s[SkipSpace(s, 0) + i] == c;
    }
  }

  /** A stripped string is its own strip. */
  lemma StripStripped(s: string)
    requires IsStripped(s)
    ensures Strip(s) == s
  {
    if s != [] {
      assert SkipSpace(s, 0) == 0;
      assert BackSpace(s, 0, |s|) == |s|;
    }
  }

  /** `s[i..].split()`: the maximal runs of non-whitespace from index `i` on. */
  function SplitWsFrom(s: string, i: nat): (words: seq<string>)
    requires i <= |s|
    ensures WellFormedWords(words)
    decreases |s| - i
  {
    var a := SkipSpace(s, i);
    if a == |s| then []
    else
      var b := SkipWord(s, a);
      SkipWordSpan(s, a);
      [s[a..b]] + SplitWsFrom(s, b)
  }

  /** `s.split()` with no separator. */
  function SplitWs(s: string): (words: seq<string>)
    ensures WellFormedWords(words)
    ensures words == [] <==> AllSpace(s)
  {
    SkipSpaceSpan(s, 0);
    SplitWsFrom(s, 0)
  }

  predicate WellFormedWords(words: seq<string>) {
    forall i :: 0 <= i < |words| ==> words[i] != [] && NoSpace(words[i])
  }

  /** `sep.join(parts)`. */
  function Join(sep: string, parts: seq<string>): string {
    if parts == [] then []
    else if |parts| == 1 then parts[0]
    else parts[0] + sep + Join(sep, parts[1..])
  }

  /** Joining a first part onto further parts puts one separator between. */
  lemma JoinCons(sep: string, first: string, rest: seq<string>)
    requires rest != []
    ensures Join(sep, [first] + rest) == first + (sep + Join(sep, rest))
  {
    assert ([first] + rest)[1..] == rest;
  }

  /** Concatenation of a list of strings (`''.join(parts)`). */
  function Concat(parts: seq<string>): string {
    if parts == [] then [] else parts[0] + Concat(parts[1..])
  }

  /** The non-whitespace characters of `s`, in order. */
  function NonSpace(s: string): (r: string)
    ensures |r| <= |s|
  {
    if s == [] then []
    else (if IsSpace(s[0]) then [] else [s[0]]) + NonSpace(s[1..])
  }

  lemma {:induction false} NonSpaceAppend(a: string, b: string)
    ensures NonSpace(a + b) == NonSpace(a) + NonSpace(b)
    decreases |a|
  {
    if a == [] {
      assert a + b == b;
    } else {
      var ab := a + b;
      assert ab[0] == a[0];
      assert ab[1..] == a[1..] + b;
      NonSpaceAppend(a[1..], b);
      var h := if IsSpace(a[0]) then [] else [a[0]];
      assert NonSpace(ab) == h + NonSpace(a[1..] + b);
      assert NonSpace(a) == h + NonSpace(a[1..]);
    }
  }

  lemma NonSpaceOfAllSpace(s: string)
    requires AllSpace(s)
    ensures NonSpace(s) == []
  {
    if s != [] {
      NonSpaceOfAllSpace(s[1..]);
    }
  }

  lemma NonSpaceOfNoSpace(s: string)
    requires NoSpace(s)
    ensures NonSpace(s) == s
  {
    if s != [] {
      NonSpaceOfNoSpace(s[1..]);
    }
  }

  /** `s.split()` loses exactly the whitespace: gluing the words back
      together gives the non-whitespace characters of `s` in order. */
  lemma SplitWsKeepsNonSpace(s: string)
    ensures Concat(SplitWs(s)) == NonSpace(s)
  {
    SplitWsFromKeepsNonSpace(s, 0);
    assert s[0..] == s;
  }

  lemma {:induction false} SplitWsFromKeepsNonSpace(s: string, i: nat)
    requires i <= |s|
    ensures Concat(SplitWsFrom(s, i)) == NonSpace(s[i..])
    decreases |s| - i
  {
    var a := SkipSpace(s, i);
    NonSpaceSkipped(s, i);
    if a < |s| {
      var b := SkipWord(s, a);
      var rest := SplitWsFrom(s, b);
      NonSpaceWord(s, a);
      SplitWsFromKeepsNonSpace(s, b);
      SplitWsFromStep(s, i, a, b, s[a..b], rest);
      ConcatCons(s[a..b], rest);
    } else {
      SplitWsFromEnd(s, i);
    }
  }

  /** The whitespace `SkipSpace` steps over adds nothing to `NonSpace`. */
  lemma NonSpaceSkipped(s: string, i: nat)
    requires i <= |s|
    ensures NonSpace(s[i..]) == NonSpace(s[SkipSpace(s, i)..])
  {
    var a := SkipSpace(s, i);
    SkipSpaceSpan(s, i);
    assert s[i..] == s[i..a] + s[a..];
    NonSpaceAppend(s[i..a], s[a..]);
    NonSpaceOfAllSpace(s[i..a]);
  }

  /** The word `SkipWord` steps over is kept whole by `NonSpace`. */
  lemma NonSpaceWord(s: string, a: nat)
    requires a <= |s|
    ensures NonSpace(s[a..]) == s[a..SkipWord(s, a)] + NonSpace(s[SkipWord(s, a)..])
  {
    var b := SkipWord(s, a);
    SkipWordSpan(s, a);
    assert s[a..] == s[a..b] + s[b..];
    NonSpaceAppend(s[a..b], s[b..]);
    NonSpaceOfNoSpace(s[a..b]);
  }

  lemma ConcatCons(w: string, rest: seq<string>)
    ensures Concat([w] + rest) == w + Concat(rest)
  {
    assert ([w] + rest)[1..] == rest;
  }

  /** Joining well-formed words with single spaces gives a stripped string
      whose only whitespace are the single separating spaces. */
  lemma {:induction false} JoinSpaceShape(words: seq<string>)
    requires WellFormedWords(words)
    ensures var r := Join(" ", words);
      && IsStripped(r)
      && (words != [] ==> r != [])
      && (forall i :: 0 <= i < |r| && IsSpace(r[i]) ==> r[i] == ' ')
      && (forall i :: 0 <= i < |r| - 1 ==> !(IsSpace(r[i]) && IsSpace(r[i + 1])))
  {
    if |words| > 1 {
      JoinSpaceShape(words[1..]);
      var w := words[0];
      var j := Join(" ", words[1..]);
      var r := Join(" ", words);
      assert r == w + " " + j;
      assert j != [];
      assert forall i :: 0 <= i < |w| ==> r[i] == w[i];
      assert r[|w|] == ' ';
      assert forall i :: |w| < i < |r| ==> r[i] == j[i - |w| - 1];
    }
  }

  /** Whitespace at index `i` is skipped by `split()`. */
  lemma SplitWsFromSpace(s: string, i: nat)
    requires i < |s| && IsSpace(s[i])
    ensures SplitWsFrom(s, i) == SplitWsFrom(s, i + 1)
  {
    assert SkipSpace(s, i) == SkipSpace(s, i + 1);
  }

  /** `q` sits in `s` from index `d` to the end. */
  predicate SuffixAt(s: string, d: nat, q: string) {
    d + |q| == |s| && forall k :: 0 <= k < |q| ==> s[d + k] == q[k]
  }

  lemma {:induction false} SkipSpaceSuffix(s: string, d: nat, q: string, i: nat)
    requires SuffixAt(s, d, q) && i <= |q|
    ensures SkipSpace(s, d + i) == d + SkipSpace(q, i)
    decreases |q| - i
  {
    if i < |q| {
      assert s[d + i] == q[i];
      if IsSpace(q[i]) {
        SkipSpaceSuffix(s, d, q, i + 1);
      }
    }
  }

  lemma {:induction false} SkipWordSuffix(s: string, d: nat, q: string, i: nat)
    requires SuffixAt(s, d, q) && i <= |q|
    ensures SkipWord(s, d + i) == d + SkipWord(q, i)
    decreases |q| - i
  {
    if i < |q| {
      assert s[d + i] == q[i];
      if !IsSpace(q[i]) {
        SkipWordSuffix(s, d, q, i + 1);
      }
    }
  }

  lemma SliceSuffix(s: string, d: nat, q: string, a: nat, b: nat)
    requires SuffixAt(s, d, q) && a <= b <= |q|
    ensures s[d + a..d + b] == q[a..b]
  {
    var u := s[d + a..d + b];
    forall k | 0 <= k < b - a
      ensures u[k] == q[a..b][k]
    {
      assert s[d + (a + k)] == q[a + k];
    }
  }

  /** What `split()` finds in the suffix `q` of `s` does not depend on what
      comes before it. */
  lemma {:induction false} SplitWsFromSuffix(s: string, d: nat, q: string, i: nat)
    requires SuffixAt(s, d, q) && i <= |q|
    ensures SplitWsFrom(s, d + i) == SplitWsFrom(q, i)
    decreases |q| - i
  {
    var a := SkipSpace(q, i);
    SkipSpaceSuffix(s, d, q, i);
    if a < |q| {
      var b := SkipWord(q, a);
      SkipWordSuffix(s, d, q, a);
      SplitWsFromSuffix(s, d, q, b);
      SliceSuffix(s, d, q, a, b);
      SplitWsFromStep(s, d + i, d + a, d + b, q[a..b], SplitWsFrom(q, b));
    } else {
      SplitWsFromEnd(s, d + i);
      SplitWsFromEnd(q, i);
    }
  }

  /** What `split()` finds in `q` does not depend on a prefix `p` before it. */
  lemma SplitWsFromShift(p: string, q: string, i: nat)
    requires i <= |q|
    ensures SplitWsFrom(p + q, |p| + i) == SplitWsFrom(q, i)
  {
    assert SuffixAt(p + q, |p|, q);
    SplitWsFromSuffix(p + q, |p|, q, i);
  }

  /** One step of `split()`: skip the whitespace up to `a`, take the word
      up to `b`, go on from `b`. */
  lemma SplitWsFromStep(s: string, i: nat, a: nat, b: nat, w: string, rest: seq<string>)
    requires i <= |s| && a == SkipSpace(s, i) && a < |s| && b == SkipWord(s, a)
    requires s[a..b] == w && SplitWsFrom(s, b) == rest
    ensures SplitWsFrom(s, i) == [w] + rest
  {
  }

  /** Nothing but whitespace from `i` on: no more words. */
  lemma SplitWsFromEnd(s: string, i: nat)
    requires i <= |s| && SkipSpace(s, i) == |s|
    ensures SplitWsFrom(s, i) == []
  {
  }

  /** A word that starts the string and is followed by whitespace (or by
      nothing) is the first word `split()` finds. */
  lemma SplitWsFirstWord(w: string, rest: string)
    requires w != [] && NoSpace(w)
    requires rest == [] || IsSpace(rest[0])
    ensures SplitWs(w + rest) == [w] + SplitWsFrom(w + rest, |w|)
  {
    var s := w + rest;
    assert SkipSpace(s, 0) == 0 by { assert s[0] == w[0]; }
    assert SkipWord(s, 0) == |w| by {
      SkipWordSpan(s, 0);
      assert forall k :: 0 <= k < |w| ==> s[k] == w[k];
      assert |w| < |s| ==> s[|w|] == rest[0];
    }
    assert s[0..|w|] == w;
  }

  /** Splitting after one more word and a single space. */
  lemma SplitWsConsWord(w: string, j: string)
    requires w != [] && NoSpace(w)
    ensures SplitWs(w + " " + j) == [w] + SplitWs(j)
  {
    var s := w + " " + j;
    SplitWsFirstWord(w, " " + j);
    assert s == w + (" " + j);
    SplitWsFromSpace(s, |w|);
    assert s == (w + " ") + j;
    SplitWsFromShift(w + " ", j, 0);
  }

  /** `' '.join(words).split() == words` for well-formed words: splitting
      the single-spaced text gives the same words back. */
  lemma {:induction false} SplitJoinSpace(words: seq<string>)
    requires WellFormedWords(words)
    ensures SplitWs(Join(" ", words)) == words
  {
    if words == [] {
    } else if |words| == 1 {
      var w := words[0];
      assert Join(" ", words) == w + [];
      SplitWsFirstWord(w, []);
      assert SkipSpace(w, |w|) == |w|;
    } else {
      assert Join(" ", words) == words[0] + " " + Join(" ", words[1..]);
      SplitWsConsWord(words[0], Join(" ", words[1..]));
      SplitJoinSpace(words[1..]);
    }
  }

  /** An occurrence of `sep` in `s` starting at index `j`. */
  predicate Occurs(s: string, sep: string, j: int) {
    0 <= j && j + |sep| <= |s| && s[j..j + |sep|] == sep
  }

  /** `s.find(sep)`: the first occurrence of `sep`, if any. */
  function Find(s: string, sep: string): (r: Option<nat>)
    requires sep != []
    ensures r.Some? ==> Occurs(s, sep, r.value)
    ensures r.Some? ==> forall j :: 0 <= j < r.value ==> !Occurs(s, sep, j)
    ensures r.None? ==> forall j :: !Occurs(s, sep, j)
  {
    if |s| < |sep| then None
    else if s[..|sep|] == sep then Some(0)
    else
      OccursTail(s, sep);
      match Find(s[1..], sep)
      case None => None
      case Some(i) => Some(i + 1)
  }

  /** Past index 0, an occurrence in `s` is one in `s[1..]`, one index
      earlier. */
  lemma OccursTail(s: string, sep: string)
    requires s != []
    ensures forall j :: j > 0 ==> (Occurs(s, sep, j) <==> Occurs(s[1..], sep, j - 1))
  {
    forall j | j > 0
      ensures Occurs(s, sep, j) <==> Occurs(s[1..], sep, j - 1)
    {
      if j + |sep| <= |s| {
        assert s[1..][j - 1..j - 1 + |sep|] == s[j..j + |sep|];
      }
    }
  }

  /** `s.split(sep)` for a non-empty separator: the pieces between the
      non-overlapping occurrences of `sep`, found left to right. */
  function Split(s: string, sep: string): (parts: seq<string>)
    requires sep != []
    ensures |parts| >= 1
    ensures Join(sep, parts) == s
    ensures forall k, j :: 0 <= k < |parts| ==> !Occurs(parts[k], sep, j)
    decreases |s|
  {
    match Find(s, sep)
    case None => [s]
    case Some(i) =>
      var head := s[..i];
      var rest := Split(s[i + |sep|..], sep);
      assert s == head + sep + s[i + |sep|..];
      assert forall j :: Occurs(head, sep, j) ==> Occurs(s, sep, j);
      [head] + rest
  }

  /** Splitting matches leftmost: every piece but the last, followed by the
      separator, has its first occurrence of the separator right after the
      piece. */
  lemma {:induction false} SplitLeftmost(s: string, sep: string, k: nat)
    requires sep != [] && k + 1 < |Split(s, sep)|
    ensures Find(Split(s, sep)[k] + sep, sep) == Some(|Split(s, sep)[k]|)
    decreases |s|
  {
    var f := Find(s, sep);
    if f.Some? {
      var i := f.value;
      var tail := s[i + |sep|..];
      SplitStep(s, sep, i, tail);
      if k == 0 {
        FindPrefix(s, sep, i);
        assert s[..i] + sep == s[..i + |sep|];
      } else {
        SplitLeftmost(tail, sep, k - 1);
        assert Split(s, sep)[k] == Split(tail, sep)[k - 1];
      }
    }
  }

  lemma SplitStep(s: string, sep: string, i: nat, tail: string)
    requires sep != [] && Find(s, sep) == Some(i) && tail == s[i + |sep|..]
    ensures Split(s, sep) == [s[..i]] + Split(tail, sep)
  {
  }

  /** The first occurrence of `sep` in `s` is also the first one in the
      prefix of `s` that ends with it. */
  lemma FindPrefix(s: string, sep: string, i: nat)
    requires sep != [] && Find(s, sep) == Some(i)
    ensures Find(s[..i + |sep|], sep) == Some(i)
  {
    var p := s[..i + |sep|];
    OccursInPrefix(s, sep, i + |sep|, i);
    var r := Find(p, sep);
    assert r.Some?;
    OccursInPrefix(s, sep, i + |sep|, r.value);
    assert r.value == i;
  }

  /** An occurrence in a prefix of `s` is one in `s`, and conversely when
      it fits in the prefix. */
  lemma OccursInPrefix(s: string, sep: string, n: nat, j: nat)
    requires n <= |s|
    ensures j + |sep| <= n ==> (Occurs(s[..n], sep, j) <==> Occurs(s, sep, j))
  {
    if j + |sep| <= n {
      assert s[..n][j..j + |sep|] == s[j..j + |sep|];
    }
  }

  /** `s.count(c)` for one character. */
  function CountChar(s: string, c: char): nat {
    if s == [] then 0 else (if s[0] == c then 1 else 0) + CountChar(s[1..], c)
  }

  lemma CountCharAppend(a: string, b: string, c: char)
    ensures CountChar(a + b, c) == CountChar(a, c) + CountChar(b, c)
  {
    if a == [] {
      assert a + b == b;
    } else {
      assert (a + b)[0] == a[0];
      assert (a + b)[1..] == a[1..] + b;
      CountCharAppend(a[1..], b, c);
    }
  }

  lemma CountCharAbsent(s: string, c: char)
    requires c !in s
    ensures CountChar(s, c) == 0
  {
    if s != [] {
      CountCharAbsent(s[1..], c);
    }
  }

  /** Splitting on one character gives one more piece than there are
      occurrences of that character. */
  lemma {:induction false} SplitCharCount(s: string, c: char)
    ensures |Split(s, [c])| == CountChar(s, c) + 1
    decreases |s|
  {
    match Find(s, [c])
    case None =>
      forall j | 0 <= j < |s|
        ensures s[j] != c
      {
        assert !Occurs(s, [c], j);
        assert s[j..j + 1] == [s[j]];
      }
      CountCharAbsent(s, c);
    case Some(i) =>
      var head := s[..i];
      var tail := s[i + 1..];
      assert s == head + [c] + tail;
      forall j | 0 <= j < |head|
        ensures head[j] != c
      {
        assert !Occurs(s, [c], j);
        assert s[j..j + 1] == [head[j]];
      }
      CountCharAbsent(head, c);
      CountCharAppend(head + [c], tail, c);
      CountCharAppend(head, [c], c);
      SplitCharCount(tail, c);
  }

  /** A piece of `s.split(c)` never contains `c`. */
  lemma SplitCharPieces(s: string, c: char, k: nat)
    requires k < |Split(s, [c])|
    ensures c !in Split(s, [c])[k]
  {
    var p := Split(s, [c])[k];
    forall j | 0 <= j < |p|
      ensures p[j] != c
    {
      assert !Occurs(p, [c], j);
      assert p[j..j + 1] == [p[j]];
    }
  }

  /** `s.replace(a, b)` for single characters. */
  function ReplaceChar(s: string, a: char, b: char): (r: string)
    ensures |r| == |s|
    ensures forall i :: 0 <= i < |s| ==> r[i] == (if s[i] == a then b else s[i])
  {
    if s == [] then [] else [if s[0] == a then b else s[0]] + ReplaceChar(s[1..], a, b)
  }

  /** The separators alone put `|parts| - 1` times the separator's count of
      `c` into the joined string. */
  lemma {:induction false} JoinCountChar(sep: string, parts: seq<string>, c: char)
    requires parts != []
    ensures CountChar(Join(sep, parts), c) >= (|parts| - 1) * CountChar(sep, c)
    decreases |parts|
  {
    if |parts| > 1 {
      JoinCountChar(sep, parts[1..], c);
      CountCharAppend(parts[0] + sep, Join(sep, parts[1..]), c);
      CountCharAppend(parts[0], sep, c);
    }
  }

  /** Replacing one character by another leaves the count of any third
      character alone. */
  lemma {:induction false} ReplaceCharCount(s: string, a: char, b: char, c: char)
    requires c != a && c != b
    ensures CountChar(ReplaceChar(s, a, b), c) == CountChar(s, c)
    decreases |s|
  {
    if s != [] {
      var r := ReplaceChar(s, a, b);
      assert r[1..] == ReplaceChar(s[1..], a, b);
      ReplaceCharCount(s[1..], a, b, c);
    }
  }

  /** Every character of a part occurs in the joined string. */
  lemma {:induction false} JoinMember(sep: string, parts: seq<string>, k: nat, c: char)
    requires k < |parts|
    ensures c in parts[k] ==> c in Join(sep, parts)
    decreases |parts|
  {
    if |parts| > 1 {
      assert Join(sep, parts) == parts[0] + sep + Join(sep, parts[1..]);
      if k > 0 {
        JoinMember(sep, parts[1..], k - 1, c);
      }
    }
  }

  /** An occurrence of `sep` inside `s.strip()` is an occurrence in `s`. */
  lemma StripOccurs(s: string, sep: string, j: int)
    requires Occurs(Strip(s), sep, j)
    ensures Occurs(s, sep, SkipSpace(s, 0) + j)
  {
    var r := Strip(s);
    var a := SkipSpace(s, 0);
    var inS := s[a + j..a + j + |sep|];
    var inR := r[j..j + |sep|];
    forall k | 0 <= k < |sep|
      ensures inS[k] == inR[k]
    {
      assert r[j + k] == s[a + j + k];
    }
    assert inS == inR;
  }
}
