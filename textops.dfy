/**
 * The Python string operations that resolve the source path: str.count,
 * str.split(sep, 1), str.replace(old, new, 1), str.rsplit(sep, 1)[1],
 * and posixpath.dirname.
 */
module TextOps {
  import opened Wrappers
  import opened Names

  /** s.count(c) for a one-character c. */
  function CountChar(s: string, c: char): (n: nat)
    ensures n <= |s|
    ensures n == 0 <==> c !in s
    decreases |s|
  {
    if s == [] then 0
    else
      var n := (if s[0] == c then 1 else 0) + CountChar(s[1..], c);
      assert c in s[1..] ==> c in s;
      n
  }

  lemma {:induction false} CountCharConcat(a: string, b: string, c: char)
    ensures CountChar(a + b, c) == CountChar(a, c) + CountChar(b, c)
    decreases |a|
  {
    if a == [] {
      assert a + b == b;
    } else {
      assert (a + b)[0] == a[0];
      assert (a + b)[1..] == a[1..] + b;
      CountCharConcat(a[1..], b, c);
    }
  }

  /** The index of the first c in s. */
  function IndexOfChar(s: string, c: char): (i: nat)
    requires c in s
    ensures i < |s| && s[i] == c && c !in s[..i]
    decreases |s|
  {
    if s[0] == c then 0
    else
      var i := 1 + IndexOfChar(s[1..], c);
      assert s[..i] == [s[0]] + s[1..][..i - 1];
      i
  }

  /** The index of the last c in s, or -1 when c does not occur. */
  function LastIndexOfChar(s: string, c: char): (i: int)
    ensures -1 <= i < |s|
    ensures i == -1 <==> c !in s
    ensures i >= 0 ==> s[i] == c && c !in s[i + 1..]
    decreases |s|
  {
    if s == [] then -1
    else if s[|s| - 1] == c then |s| - 1
    else
      var i := LastIndexOfChar(s[..|s| - 1], c);
      assert s == s[..|s| - 1] + [s[|s| - 1]];
      assert i >= 0 ==> s[i + 1..] == s[..|s| - 1][i + 1..] + [s[|s| - 1]];
      i
  }

  /**
   * s.split(c, 1) when c occurs in s: the text before the first c and the
   * text after it.
   */
  function SplitAtFirst(s: string, c: char): (parts: (string, string))
    requires c in s
    ensures s == parts.0 + [c] + parts.1
    ensures c !in parts.0
    ensures CountChar(parts.1, c) + 1 == CountChar(s, c)
  {
    var i := IndexOfChar(s, c);
    var parts := (s[..i], s[i + 1..]);
    assert s == parts.0 + [c] + parts.1;
    CountCharConcat(parts.0 + [c], parts.1, c);
    CountCharConcat(parts.0, [c], c);
    parts
  }

  /** The split is determined by its defining properties. */
  lemma SplitAtFirstUnique(s: string, c: char, p: string, q: string)
    requires s == p + [c] + q && c !in p
    ensures SplitAtFirst(s, c) == (p, q)
  {
    var parts := SplitAtFirst(s, c);
    var i := |parts.0|;
    assert s[|p|] == c;
    assert forall k :: 0 <= k < |p| ==> s[k] == p[k];
    assert forall k :: 0 <= k < i ==> s[..i][k] == s[k];
    assert parts.0 == s[..i] == p;
    assert parts.1 == s[i + 1..] == q;
  }

  /**
   * posixpath.dirname(p): p up to and including its last "/", with the
   * trailing slashes removed unless that head consists of slashes only.
   * The ensures characterise the result completely: it is a prefix of p, the
   * rest of p holds slashes only at its front, and the cut lies just after a
   * run of slashes (when the result is all slashes) or just before one.
   */
  function Dirname(p: string): (d: string)
    ensures |d| <= |p| && d == p[..|d|]
    ensures d == [] <==> '/' !in p
    ensures forall j, k :: |d| <= j <= k < |p| && p[k] == '/' ==> p[j] == '/'
    ensures AllSlashes(d) ==> |d| == |p| || p[|d|] != '/'
    ensures !AllSlashes(d) ==> d[|d| - 1] != '/' && |d| < |p| && p[|d|] == '/'
  {
    var i := LastIndexOfChar(p, '/');
    var head := p[..i + 1];
    assert i >= 0 ==> head[i] == '/';
    assert '/' !in p[i + 1..];
    assert forall k :: i < k < |p| ==> p[k] == p[i + 1..][k - i - 1];
    if head != [] && !AllSlashes(head) then
      var d := RStripSlashes(head);
      assert forall j :: |d| <= j <= i ==> p[j] == head[|d|..][j - |d|];
      d
    else
      head
  }

  /** pat occurs in s starting at index i. */
  predicate OccursAt(s: string, pat: string, i: int) {
    0 <= i && i + |pat| <= |s| && s[i..i + |pat|] == pat
  }

  /** The first occurrence of pat in s at or after index from. */
  function FindFrom(s: string, pat: string, from: nat): (r: Option<nat>)
    ensures r.Some? ==>
      from <= r.value && OccursAt(s, pat, r.value) &&
      forall j :: from <= j < r.value ==> !OccursAt(s, pat, j)
    ensures r.None? ==> forall j :: from <= j ==> !OccursAt(s, pat, j)
    decreases |s| - from
  {
    if from + |pat| > |s| then None
    else if OccursAt(s, pat, from) then Some(from)
    else FindFrom(s, pat, from + 1)
  }

  /**
   * s.replace(pat, rep, 1): the first occurrence of pat is replaced by rep
   * and the rest of s is kept; s is returned unchanged when pat does not
   * occur. An empty pat occurs at index 0, so rep is then prepended.
   */
  function ReplaceFirst(s: string, pat: string, rep: string): (r: string)
    ensures (forall j :: !OccursAt(s, pat, j)) ==> r == s
    ensures forall i :: OccursAt(s, pat, i) && (forall j :: 0 <= j < i ==> !OccursAt(s, pat, j)) ==>
      r == s[..i] + rep + s[i + |pat|..]
  {
    match FindFrom(s, pat, 0)
    case None => s
    case Some(i) =>
      assert forall i' :: OccursAt(s, pat, i') && (forall j :: 0 <= j < i' ==> !OccursAt(s, pat, j)) ==> i' == i;
      s[..i] + rep + s[i + |pat|..]
  }

  /** A file listed under base has base replaced by rep at its front. */
  lemma ReplaceFirstOfPrefix(s: string, pat: string, rep: string)
    requires StartsWith(s, pat)
    ensures ReplaceFirst(s, pat, rep) == rep + s[|pat|..]
  {
    assert OccursAt(s, pat, 0);
    assert s[..0] + rep + s[|pat|..] == rep + s[|pat|..];
  }

  /**
   * s.rsplit("/", 1)[1]: the text after the last "/". Python raises
   * IndexError when s has no "/", which is None here.
   */
  function AfterLastSlash(s: string): (r: Option<string>)
    ensures r.None? <==> '/' !in s
    ensures r.Some? ==>
      '/' !in r.value && |r.value| < |s| &&
      s == s[..|s| - |r.value| - 1] + "/" + r.value
  {
    var i := LastIndexOfChar(s, '/');
    if i < 0 then None
    else
      assert s == s[..i] + "/" + s[i + 1..];
      Some(s[i + 1..])
  }

  /** The text after the last "/" is determined by its defining properties. */
  lemma AfterLastSlashUnique(s: string, head: string, name: string)
    requires s == head + "/" + name && '/' !in name
    ensures AfterLastSlash(s) == Some(name)
  {
    var i := LastIndexOfChar(s, '/');
    assert s[|head|] == '/';
    assert forall k :: |head| < k < |s| ==> s[k] == name[k - |head| - 1];
    assert forall k :: i < k < |s| ==> s[k] == s[i + 1..][k - i - 1];
    assert i == |head|;
    assert s[i + 1..] == name;
  }

  /** A string with exactly one c holds one c and splits around it. */
  lemma CountAndSplitOne(p: string, c: char, q: string)
    requires c !in p && c !in q
    ensures CountChar(p + [c] + q, c) == 1
    ensures SplitAtFirst(p + [c] + q, c) == (p, q)
  {
    CountCharConcat(p, [c], c);
    CountCharConcat(p + [c], q, c);
    assert CountChar([c], c) == 1 by {
      assert [c][1..] == [];
    }
    SplitAtFirstUnique(p + [c] + q, c, p, q);
  }

  /** "/home/" + "*" + ".csv" holds one "*" and splits around it into "/home/" and ".csv". */
  lemma CountAndSplitExample()
    ensures CountChar("/home/*.csv", '*') == 1
    ensures SplitAtFirst("/home/*.csv", '*') == ("/home/", ".csv")
  {
    assert "/home/" + ['*'] + ".csv" == "/home/*.csv";
    assert '*' !in "/home/" && '*' !in ".csv";
    CountAndSplitOne("/home/", '*', ".csv");
  }

  /** The directory of "/home/" is "/home"; that of "/" is "/"; that of "data.csv" is "". */
  lemma DirnameExamples()
    ensures Dirname("/home/") == "/home"
    ensures Dirname("/") == "/"
    ensures Dirname("data.csv") == ""
  {
    var p := "/home/";
    var d := Dirname(p);
    assert p[5] == '/';
    assert forall j :: |d| <= j <= 5 ==> p[j] == '/';
    assert p[1] != '/' && p[2] != '/' && p[3] != '/' && p[4] != '/';
    assert d == p[..|d|];
    assert '/' !in "data.csv";
  }
}
