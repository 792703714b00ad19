/** How the program tells a web address from a local file path: a purely
    syntactic, case-sensitive prefix test on the (already stripped) path. */
module Location {
  import opened Wrappers
  import opened Text

  const HttpPrefix := "http://"
  const HttpsPrefix := "https://"

  /** A path is fetched over the network exactly when it starts with one of
      the two web prefixes; everything else is opened as a local file. Read
      as a URL, that is exactly a path whose scheme is `http` or `https`. */
  predicate IsRemote(path: string)
    ensures IsRemote(path) <==> Scheme(path) == Some("http") || Scheme(path) == Some("https")
  {
    WebPrefixIffWebScheme(path);
    StartsWith(path, HttpPrefix) || StartsWith(path, HttpsPrefix)
  }

  /** The characters "://" start at position `j` of `s`. */
  predicate SeparatorAt(s: string, j: int) {
    0 <= j && j + 3 <= |s| && s[j] == ':' && s[j + 1] == '/' && s[j + 2] == '/'
  }

  /** The position of the first "://" in `s`, or `|s|` when there is none. */
  function SeparatorIndex(s: string): (i: nat)
    ensures i <= |s|
    ensures i < |s| <==> SeparatorAt(s, i)
    ensures forall j :: 0 <= j < i ==> !SeparatorAt(s, j)
    ensures i == |s| ==> forall j :: !SeparatorAt(s, j)
    decreases |s|
  {
    if |s| < 3 then |s|
    else if SeparatorAt(s, 0) then 0
    else
      var i := 1 + SeparatorIndex(s[1..]);
      assert forall j :: 1 <= j ==> (SeparatorAt(s, j) <==> SeparatorAt(s[1..], j - 1));
      i
  }

  /** Reference reading of a location as a URL: the scheme is whatever comes
      before the first "://", and a string without one has no scheme. */
  function Scheme(s: string): Option<string> {
    var i := SeparatorIndex(s);
    if i < |s| then Some(s[..i]) else None
  }

  /** The first separator of a string whose first `k` characters hold no ':'
      and which has "://" at `k` is at `k`. */
  lemma SeparatorIndexAt(s: string, k: nat)
    requires SeparatorAt(s, k)
    requires forall j :: 0 <= j < k ==> s[j] != ':'
    ensures SeparatorIndex(s) == k
  {
  }

  /** The prefix test agrees with the reference reading: a path starts with a
      web prefix exactly when its scheme is `http` or `https`. So upper-case
      or other schemes (`HTTP://`, `ftp://`) and scheme-less hosts are not
      web addresses. */
  lemma {:induction false} WebPrefixIffWebScheme(path: string)
    ensures StartsWith(path, HttpPrefix) || StartsWith(path, HttpsPrefix)
            <==> Scheme(path) == Some("http") || Scheme(path) == Some("https")
  {
    if StartsWith(path, HttpPrefix) {
      assert path[..7] == HttpPrefix;
      assert forall j :: 0 <= j < 7 ==> path[j] == HttpPrefix[j];
      SeparatorIndexAt(path, 4);
      assert path[..4] == "http";
    } else if StartsWith(path, HttpsPrefix) {
      assert path[..8] == HttpsPrefix;
      assert forall j :: 0 <= j < 8 ==> path[j] == HttpsPrefix[j];
      SeparatorIndexAt(path, 5);
      assert path[..5] == "https";
    }
  }

  /** The test is case-sensitive: an upper-case scheme is a local path even
      though its scheme reads as HTTP. */
  lemma UpperCaseSchemeIsLocal()
    ensures !IsRemote("HTTP://a")
    ensures Scheme("HTTP://a") == Some("HTTP")
  {
    var s := "HTTP://a";
    SeparatorIndexAt(s, 4);
    assert s[..4] == "HTTP";
  }
}
