/**
 * Normalisation of the operator's destination path and bucket name
 * (the two static helpers of SFTPToGCSOperator), together with the
 * Python string operations they rely on: str.lstrip, str.rstrip and
 * str.strip with the argument "/".
 */
module Names {
  import opened Wrappers

  /** The scheme prefix that the bucket name may carry. */
  const GsScheme: string := "gs://"

  /** Every character of s is a slash (vacuously true of ""). */
  predicate AllSlashes(s: string) {
    forall i :: 0 <= i < |s| ==> s[i] == '/'
  }

  predicate StartsWith(s: string, p: string) {
    |p| <= |s| && s[..|p|] == p
  }

  /** r sits in s at offset i, with nothing but slashes on either side of it. */
  predicate SlashFramed(s: string, i: nat, r: string) {
    i + |r| <= |s| && s[i..i + |r|] == r && AllSlashes(s[..i]) && AllSlashes(s[i + |r|..])
  }

  /** s.lstrip("/"): the longest suffix of s that does not start with a slash. */
  function LStripSlashes(s: string): (r: string)
    ensures |r| <= |s| && r == s[|s| - |r|..]
    ensures AllSlashes(s[..|s| - |r|])
    ensures r == [] || r[0] != '/'
    decreases |s|
  {
    if |s| > 0 && s[0] == '/' then
      var r := LStripSlashes(s[1..]);
      assert s[..|s| - |r|] == [s[0]] + s[1..][..|s| - 1 - |r|];
      r
    else
      s
  }

  /** s.rstrip("/"): the longest prefix of s that does not end with a slash. */
  function RStripSlashes(s: string): (r: string)
    ensures |r| <= |s| && r == s[..|r|]
    ensures AllSlashes(s[|r|..])
    ensures r == [] || r[|r| - 1] != '/'
    decreases |s|
  {
    if |s| > 0 && s[|s| - 1] == '/' then
      var r := RStripSlashes(s[..|s| - 1]);
      assert s[|r|..] == s[..|s| - 1][|r|..] + [s[|s| - 1]];
      r
    else
      s
  }

  /** s.strip("/"): s without its leading and trailing slashes. */
  function StripSlashes(s: string): (r: string)
    ensures r == [] || (r[0] != '/' && r[|r| - 1] != '/')
    ensures exists i: nat :: SlashFramed(s, i, r)
  {
    var l := LStripSlashes(s);
    var r := RStripSlashes(l);
    var i := |s| - |l|;
    assert l == s[i..];
    assert s[i..i + |r|] == l[..|r|];
    assert s[i + |r|..] == l[|r|..];
    assert r != [] ==> r[0] == l[0];
    assert SlashFramed(s, i, r);
    r
  }

  /**
   * _set_destination_path: an absent path becomes "", a path that does not
   * start with "/" is kept, otherwise every leading "/" is removed.
   */
  function SetDestinationPath(path: Option<string>): (r: string)
    ensures path.None? ==> r == ""
    ensures path.Some? && !StartsWith(path.value, "/") ==> r == path.value
    ensures path.Some? ==>
      |r| <= |path.value| && r == path.value[|path.value| - |r|..] &&
      AllSlashes(path.value[..|path.value| - |r|])
    ensures r == [] || r[0] != '/'
  {
    match path
    case None => ""
    case Some(p) => if StartsWith(p, "/") then LStripSlashes(p) else p
  }

  /** Normalising an already normalised destination path changes nothing. */
  lemma SetDestinationPathIdempotent(path: Option<string>)
    ensures SetDestinationPath(Some(SetDestinationPath(path))) == SetDestinationPath(path)
  {
    var r := SetDestinationPath(path);
    assert !StartsWith(r, "/");
  }

  /** A path that does not start with "/" is its own normal form. */
  lemma SetDestinationPathKeeps(p: string)
    requires p == [] || p[0] != '/'
    ensures SetDestinationPath(Some(p)) == p
  {
    assert !StartsWith(p, "/") by {
      if p != [] {
        assert p[..1][0] == p[0];
      }
    }
  }

  /**
   * _set_bucket_name: at most one leading "gs://" is dropped, then every
   * leading and trailing "/" of what remains.
   */
  function SetBucketName(name: string): (r: string)
    ensures r == [] || (r[0] != '/' && r[|r| - 1] != '/')
    ensures StartsWith(name, GsScheme) ==> exists i: nat :: SlashFramed(name[|GsScheme|..], i, r)
    ensures !StartsWith(name, GsScheme) ==> exists i: nat :: SlashFramed(name, i, r)
  {
    var bucket := if StartsWith(name, GsScheme) then name[|GsScheme|..] else name;
    StripSlashes(bucket)
  }

  /** Destination paths: "/a/b" and "//a/b" give "a/b"; "a/b" and "" are kept; an absent path gives "". */
  lemma SetDestinationPathExamples()
    ensures SetDestinationPath(Some("/a/b")) == "a/b"
    ensures SetDestinationPath(Some("//a/b")) == "a/b"
    ensures SetDestinationPath(Some("a/b")) == "a/b"
    ensures SetDestinationPath(Some("")) == ""
    ensures SetDestinationPath(None) == ""
  {
    assert StartsWith("/a/b", "/");
    assert LStripSlashes("a/b") == "a/b";
    assert "/a/b"[1..] == "a/b";
    assert "//a/b"[1..] == "/a/b";
    assert StartsWith("//a/b", "/");
    assert !StartsWith("a/b", "/");
  }

  /** Bucket names: "gs://my-bucket/" and "my-bucket" both give "my-bucket". */
  lemma SetBucketNameExamples()
    ensures SetBucketName("gs://my-bucket/") == "my-bucket"
    ensures SetBucketName("my-bucket") == "my-bucket"
    ensures SetBucketName("/my-bucket//") == "my-bucket"
  {
    assert StartsWith("gs://my-bucket/", GsScheme);
    assert "gs://my-bucket/"[5..] == "my-bucket/";
    assert LStripSlashes("my-bucket/") == "my-bucket/";
    assert "my-bucket/"[..9] == "my-bucket";
    assert RStripSlashes("my-bucket/") == "my-bucket";
    assert !StartsWith("my-bucket", GsScheme);
    assert LStripSlashes("my-bucket") == "my-bucket";
    assert RStripSlashes("my-bucket") == "my-bucket";
    assert !StartsWith("/my-bucket//", GsScheme);
    assert "/my-bucket//"[1..] == "my-bucket//";
    assert LStripSlashes("my-bucket//") == "my-bucket//";
    assert "my-bucket//"[..10] == "my-bucket/";
    assert "my-bucket/"[..9] == "my-bucket";
  }

  /**
   * Only one scheme prefix is removed, so normalising a bucket name twice
   * can differ from normalising it once: "gs://gs://x" gives "gs://x".
   */
  lemma SetBucketNameNotIdempotent()
    ensures SetBucketName("gs://gs://x") == "gs://x"
    ensures SetBucketName(SetBucketName("gs://gs://x")) != SetBucketName("gs://gs://x")
  {
    assert StartsWith("gs://gs://x", GsScheme);
    assert "gs://gs://x"[5..] == "gs://x";
    assert LStripSlashes("gs://x") == "gs://x";
    assert RStripSlashes("gs://x") == "gs://x";
    assert StartsWith("gs://x", GsScheme);
    assert "gs://x"[5..] == "x";
    assert LStripSlashes("x") == "x";
    assert RStripSlashes("x") == "x";
  }
}
