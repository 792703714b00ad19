/** `parse_sitemap`: fetch a sitemap document from the network or from disk,
    collect the text of its `<loc>` elements and keep the non-blank ones.
    Every failure along the way becomes `None`. */
module Sitemap {
  import opened Wrappers
  import opened Text
  import opened Location
  import opened Net

  const BrowserUserAgent := "Mozilla/5.0"
  const FetchTimeoutSeconds := 10

  /** The GET the program sends for a remote sitemap. */
  function SitemapRequest(path: string): Request {
    Request(Get, path, Some(BrowserUserAgent), FetchTimeoutSeconds)
  }

  /** The raw document: the body of a non-error HTTP response for a remote
      path, the file's bytes for a local one. */
  function FetchContent(path: string, client: Client, reader: FileReader): (r: Option<Bytes>)
    ensures IsRemote(path) ==>
      (r.Some? <==> client(SitemapRequest(path)).Some? && !IsErrorStatus(client(SitemapRequest(path)).value.status))
    ensures IsRemote(path) && r.Some? ==> r.value == client(SitemapRequest(path)).value.content
    ensures !IsRemote(path) ==> r == reader(path)
  {
    if IsRemote(path) then
      match client(SitemapRequest(path))
      case None => None
      case Some(response) =>
        if IsErrorStatus(response.status) then None else Some(response.content)
    else
      reader(path)
  }

  /** The `<loc>` texts whose stripped form is non-empty, unchanged and in
      document order. */
  function KeepNonBlank(locs: seq<string>): (urls: seq<string>)
    ensures |urls| <= |locs|
    ensures forall i :: 0 <= i < |urls| ==> !IsBlank(urls[i])
  {
    if locs == [] then []
    else
      var rest := KeepNonBlank(locs[1..]);
      if IsBlank(locs[0]) then rest else [locs[0]] + rest
  }

  /** Filtering a concatenation filters each part. */
  lemma {:induction false} KeepNonBlankAppend(a: seq<string>, b: seq<string>)
    ensures KeepNonBlank(a + b) == KeepNonBlank(a) + KeepNonBlank(b)
    decreases |a|
  {
    if a == [] {
      assert a + b == b;
    } else {
      assert (a + b)[1..] == a[1..] + b;
      KeepNonBlankAppend(a[1..], b);
    }
  }

  /** The URLs kept are exactly the non-blank `<loc>` texts. */
  lemma {:induction false} KeepNonBlankMembers(locs: seq<string>)
    ensures forall u :: u in KeepNonBlank(locs) <==> u in locs && !IsBlank(u)
    decreases |locs|
  {
    if locs != [] {
      KeepNonBlankMembers(locs[1..]);
      assert forall u :: u in locs <==> u == locs[0] || u in locs[1..];
    }
  }

  /** A single `<loc>` text is kept exactly when it is not blank. */
  lemma KeepNonBlankSingle(loc: string)
    ensures KeepNonBlank([loc]) == if IsBlank(loc) then [] else [loc]
  {
    assert [loc][1..] == [];
  }

  /** Extending the scanned prefix by one `<loc>` text extends the result by
      that text exactly when it is not blank. */
  lemma KeepNonBlankStep(locs: seq<string>, i: nat)
    requires i < |locs|
    ensures KeepNonBlank(locs[..i + 1]) == KeepNonBlank(locs[..i]) + KeepNonBlank([locs[i]])
    ensures KeepNonBlank([locs[i]]) == if IsBlank(locs[i]) then [] else [locs[i]]
  {
    assert locs[..i + 1] == locs[..i] + [locs[i]];
    KeepNonBlankAppend(locs[..i], [locs[i]]);
    KeepNonBlankSingle(locs[i]);
  }

  /** Each URL occurs in the result as often as it occurs among the
      `<loc>` texts, and blank texts not at all. */
  lemma {:induction false} KeepNonBlankCounts(locs: seq<string>, u: string)
    ensures multiset(KeepNonBlank(locs))[u] == if IsBlank(u) then 0 else multiset(locs)[u]
    decreases |locs|
  {
    if locs != [] {
      var rest := KeepNonBlank(locs[1..]);
      KeepNonBlankCounts(locs[1..], u);
      assert locs == [locs[0]] + locs[1..];
      assert multiset(locs) == multiset{locs[0]} + multiset(locs[1..]);
      if !IsBlank(locs[0]) {
        assert KeepNonBlank(locs) == [locs[0]] + rest;
        assert multiset(KeepNonBlank(locs)) == multiset{locs[0]} + multiset(rest);
      } else {
        assert KeepNonBlank(locs) == rest;
      }
    }
  }

  /** The list comprehension as a loop over the document's `<loc>` texts,
      recording where each kept URL came from. The positions are strictly
      increasing and are exactly the indices of the non-blank texts, and the
      URL at each position is the kept URL of the same rank. */
  method LocPositions(locs: seq<string>) returns (positions: seq<nat>)
    ensures |positions| == |KeepNonBlank(locs)|
    ensures forall k :: 0 <= k < |positions| ==>
              positions[k] < |locs| && KeepNonBlank(locs)[k] == locs[positions[k]]
    ensures Increasing(positions)
    ensures forall i :: 0 <= i < |locs| ==> (i in positions <==> !IsBlank(locs[i]))
  {
    var urls := [];
    positions := [];
    var i := 0;
    while i < |locs|
      invariant 0 <= i <= |locs|
      invariant urls == KeepNonBlank(locs[..i])
      invariant |positions| == |urls|
      invariant forall k :: 0 <= k < |urls| ==> positions[k] < i && urls[k] == locs[positions[k]]
      invariant Increasing(positions)
      invariant forall j :: 0 <= j < i ==> (j in positions <==> !IsBlank(locs[j]))
    {
      var loc := locs[i];
      KeepNonBlankStep(locs, i);
      if !IsBlank(loc) {
        PositionsExtend(positions, i);
        urls := urls + [loc];
        positions := positions + [i];
      } else {
        assert i !in positions;
      }
      i := i + 1;
    }
    assert locs[..i] == locs;
  }

  /** Positions listed in strictly increasing order. */
  predicate Increasing(positions: seq<nat>) {
    forall k, l :: 0 <= k < l < |positions| ==> positions[k] < positions[l]
  }

  /** Appending an index past every recorded position keeps the order and
      adds exactly that index. */
  lemma PositionsExtend(positions: seq<nat>, i: nat)
    requires Increasing(positions)
    requires forall k :: 0 <= k < |positions| ==> positions[k] < i
    ensures Increasing(positions + [i])
    ensures forall j :: j in positions + [i] <==> j in positions || j == i
    ensures i !in positions
  {
  }

  /** `parse_sitemap`. The result is never an empty list: either the
      non-blank `<loc>` texts of the fetched document, or `None` when the
      fetch, the read or the parse failed or no non-blank text was found.
      The entries are taken as they are, so the locations listed by a
      sitemap index come back as ordinary URLs and are never fetched. */
  function ParseSitemap(path: string, client: Client, reader: FileReader, parser: LocParser)
    : (r: Option<seq<string>>)
    ensures r.Some? ==> |r.value| > 0
    ensures r.Some? <==>
      && FetchContent(path, client, reader).Some?
      && parser(FetchContent(path, client, reader).value).Some?
      && exists i :: 0 <= i < |parser(FetchContent(path, client, reader).value).value|
                     && !IsBlank(parser(FetchContent(path, client, reader).value).value[i])
    ensures r.Some? ==>
      var locs := parser(FetchContent(path, client, reader).value).value;
      && r.value == KeepNonBlank(locs)
      && |r.value| <= |locs|
      && forall u :: u in r.value ==> u in locs
  {
    match FetchContent(path, client, reader)
    case None => None
    case Some(content) =>
      match parser(content)
      case None => None
      case Some(locs) =>
        var urls := KeepNonBlank(locs);
        KeepNonBlankMembers(locs);
        assert urls == [] <==> forall i :: 0 <= i < |locs| ==> IsBlank(locs[i]) by {
          if urls == [] {
            assert forall i :: 0 <= i < |locs| ==> locs[i] in locs;
          } else {
            assert urls[0] in urls;
          }
        }
        if urls == [] then None else Some(urls)
  }

  /** A remote path never touches the disk: the file reader is irrelevant. */
  lemma RemoteIgnoresDisk(path: string, client: Client, reader1: FileReader, reader2: FileReader, parser: LocParser)
    requires IsRemote(path)
    ensures ParseSitemap(path, client, reader1, parser) == ParseSitemap(path, client, reader2, parser)
  {
  }

  /** A local path never touches the network: the HTTP client is irrelevant. */
  lemma LocalIgnoresNetwork(path: string, client1: Client, client2: Client, reader: FileReader, parser: LocParser)
    requires !IsRemote(path)
    ensures ParseSitemap(path, client1, reader, parser) == ParseSitemap(path, client2, reader, parser)
  {
  }

  /** An HTTP error status is a failure even when the body is a valid sitemap. */
  lemma ErrorStatusFails(path: string, client: Client, reader: FileReader, parser: LocParser)
    requires IsRemote(path)
    requires client(SitemapRequest(path)).Some?
    requires IsErrorStatus(client(SitemapRequest(path)).value.status)
    ensures ParseSitemap(path, client, reader, parser) == None
  {
  }

  /** Three usable entries and one whitespace-only entry give three URLs. */
  lemma BlankEntryDropped()
    ensures KeepNonBlank(["http://x/1", " \n\t", "http://x/2", "http://x/3"])
            == ["http://x/1", "http://x/2", "http://x/3"]
  {
    var locs := ["http://x/1", " \n\t", "http://x/2", "http://x/3"];
    assert IsBlank(" \n\t");
    assert !IsBlank("http://x/1") by { assert !IsSpace("http://x/1"[0]); }
    assert !IsBlank("http://x/2") by { assert !IsSpace("http://x/2"[0]); }
    assert !IsBlank("http://x/3") by { assert !IsSpace("http://x/3"[0]); }
    assert locs[1..][1..][1..][1..] == [];
  }
}
