/** `save_urls` and the entry point that follows parsing: the URL list is
    written to `urls.txt` one per line, and at most twenty of them are shown
    on the console. The file write is a parameter. */
module Output {
  import opened Wrappers
  import opened Text
  import opened Net
  import opened Sitemap

  const UrlsFile := "urls.txt"
  const PreviewLimit := 20

  /** Writing `text` to a named file, true when no exception was raised. */
  type FileWriter = (string, string) -> bool

  /** The text `save_urls` writes: every URL followed by a newline, in order. */
  function FileBody(urls: seq<string>): (body: string)
    ensures |body| >= |urls|
    ensures urls == [] <==> body == []
    ensures urls != [] ==> body[|body| - 1] == '\n'
  {
    if urls == [] then [] else urls[0] + "\n" + FileBody(urls[1..])
  }

  /** `save_urls(urls)`: true exactly when writing the body to `urls.txt`
      raised nothing. For a non-empty list the text written is the
      newline-joined list with one final newline. */
  function SaveUrls(urls: seq<string>, write: FileWriter): (ok: bool)
    ensures urls == [] ==> (ok <==> write(UrlsFile, ""))
    ensures urls != [] ==> (ok <==> write(UrlsFile, Join(urls) + "\n"))
  {
    if urls == [] then
      write(UrlsFile, FileBody(urls))
    else
      FileBodyIsJoinedLines(urls);
      write(UrlsFile, FileBody(urls))
  }

  /** `'\n'.join(lines)`, the form in which the preview is printed. */
  function Join(lines: seq<string>): string {
    if |lines| == 0 then []
    else if |lines| == 1 then lines[0]
    else lines[0] + "\n" + Join(lines[1..])
  }

  /** The position of the first newline in `s`, or `|s|` when there is none. */
  function NewlineIndex(s: string): (i: nat)
    ensures i <= |s|
    ensures i < |s| ==> s[i] == '\n'
    ensures forall j :: 0 <= j < i ==> s[j] != '\n'
    decreases |s|
  {
    if s == [] || s[0] == '\n' then 0 else 1 + NewlineIndex(s[1..])
  }

  /** Reading a text file back line by line, without the line terminators;
      a final unterminated piece is a line of its own. Lines end at `'\n'`
      only: the platform's newline translation in text mode, and text-mode
      reading's extra split at `'\r'`, are not modelled. */
  function Lines(s: string): seq<string>
    decreases |s|
  {
    if s == [] then []
    else
      var i := NewlineIndex(s);
      if i == |s| then [s] else [s[..i]] + Lines(s[i + 1..])
  }

  predicate NoNewline(u: string) {
    forall j :: 0 <= j < |u| ==> u[j] != '\n'
  }

  /** The file is readable back: as long as no URL holds a newline, reading
      `urls.txt` line by line gives exactly the saved list. */
  lemma {:induction false} FileBodyLines(urls: seq<string>)
    requires forall k :: 0 <= k < |urls| ==> NoNewline(urls[k])
    ensures Lines(FileBody(urls)) == urls
    decreases |urls|
  {
    if urls != [] {
      assert NoNewline(urls[0]);
      LinesAfterLine(urls[0], FileBody(urls[1..]));
      FileBodyLines(urls[1..]);
    }
  }

  /** A newline-free line followed by a newline is read back as that line,
      then the lines of whatever follows. */
  lemma LinesAfterLine(u: string, rest: string)
    requires NoNewline(u)
    ensures Lines(u + "\n" + rest) == [u] + Lines(rest)
  {
    var s := u + "\n" + rest;
    NewlineIndexAfter(u, rest);
    assert s[..|u|] == u;
    assert s[|u| + 1..] == rest;
  }

  /** In a line followed by a newline, the first newline is the terminator. */
  lemma NewlineIndexAfter(u: string, rest: string)
    requires NoNewline(u)
    ensures NewlineIndex(u + "\n" + rest) == |u|
  {
    var s := u + "\n" + rest;
    assert s[|u|] == '\n';
    assert forall j :: 0 <= j < |u| ==> s[j] == u[j];
  }

  /** The body of a concatenation is the concatenation of the bodies. */
  lemma {:induction false} FileBodyAppend(a: seq<string>, b: seq<string>)
    ensures FileBody(a + b) == FileBody(a) + FileBody(b)
    decreases |a|
  {
    if a == [] {
      assert a + b == b;
    } else {
      assert (a + b)[1..] == a[1..] + b;
      FileBodyAppend(a[1..], b);
    }
  }

  /** The file body is the joined list plus one final newline. */
  lemma {:induction false} FileBodyIsJoinedLines(urls: seq<string>)
    requires urls != []
    ensures FileBody(urls) == Join(urls) + "\n"
    decreases |urls|
  {
    if |urls| > 1 {
      FileBodyIsJoinedLines(urls[1..]);
    } else {
      assert urls[1..] == [];
    }
  }

  datatype Heading = WholeList | FirstTwenty

  /** What the console shows after a successful save: the count, a heading,
      the URLs listed and whether the "full list saved" note follows. */
  datatype Report = Report(count: nat, heading: Heading, shown: seq<string>, fullListNote: bool)

  /** The preview. At most twenty URLs are listed, always the first ones;
      the note appears exactly when some URLs are left out of the listing. */
  function Preview(urls: seq<string>): (p: Report)
    ensures p.count == |urls|
    ensures |p.shown| == if |urls| <= PreviewLimit then |urls| else PreviewLimit
    ensures p.shown == urls[..|p.shown|]
    ensures p.fullListNote <==> |p.shown| < |urls|
    ensures p.heading == WholeList <==> !p.fullListNote
  {
    var count := |urls|;
    var shown := if count <= PreviewLimit then urls else urls[..PreviewLimit];
    if count <= PreviewLimit then Report(count, WholeList, shown, false)
    else Report(count, FirstTwenty, shown, true)
  }

  /** The printed listing, followed by a newline, is the start of the saved
      file: the preview never shows anything the file does not hold first. */
  lemma PreviewIsFilePrefix(urls: seq<string>)
    requires urls != []
    ensures StartsWith(FileBody(urls), Join(Preview(urls).shown) + "\n")
  {
    var shown := Preview(urls).shown;
    assert urls == shown + urls[|shown|..];
    FileBodyAppend(shown, urls[|shown|..]);
    FileBodyIsJoinedLines(shown);
  }

  /** The listed URLs are the first lines of the saved file. */
  lemma PreviewMatchesFileLines(urls: seq<string>)
    requires forall k :: 0 <= k < |urls| ==> NoNewline(urls[k])
    ensures |Preview(urls).shown| <= |Lines(FileBody(urls))|
    ensures Lines(FileBody(urls))[..|Preview(urls).shown|] == Preview(urls).shown
  {
    FileBodyLines(urls);
  }

  datatype Outcome =
    | ParseFailed              // parse_sitemap gave None: nothing is saved or shown
    | SaveFailed               // writing urls.txt raised: nothing is shown
    | Reported(report: Report)

  /** The entry point once the path is known: parse, save only a non-empty
      list, and show the preview only when saving succeeded. */
  function Run(path: string, client: Client, reader: FileReader, parser: LocParser, write: FileWriter)
    : (o: Outcome)
    ensures o == ParseFailed <==> ParseSitemap(path, client, reader, parser).None?
    ensures o.Reported? <==>
      && ParseSitemap(path, client, reader, parser).Some?
      && write(UrlsFile, FileBody(ParseSitemap(path, client, reader, parser).value))
    ensures o.Reported? ==>
      && 0 < o.report.count
      && o.report.count == |ParseSitemap(path, client, reader, parser).value|
      && |o.report.shown| <= o.report.count
      && |o.report.shown| == (if o.report.count <= PreviewLimit then o.report.count else PreviewLimit)
      && o.report.shown == ParseSitemap(path, client, reader, parser).value[..|o.report.shown|]
      && (o.report.fullListNote <==> o.report.count > PreviewLimit)
      && (o.report.heading == FirstTwenty <==> o.report.count > PreviewLimit)
    ensures o.Reported? ==> o.report == Preview(ParseSitemap(path, client, reader, parser).value)
  {
    match ParseSitemap(path, client, reader, parser)
    case None => ParseFailed
    case Some(urls) =>
      if urls != [] && SaveUrls(urls, write) then Reported(Preview(urls)) else SaveFailed
  }

  /** When parsing fails no file is written: the writer is never consulted. */
  lemma ParseFailureWritesNothing(path: string, client: Client, reader: FileReader, parser: LocParser,
                                  write1: FileWriter, write2: FileWriter)
    requires ParseSitemap(path, client, reader, parser).None?
    ensures Run(path, client, reader, parser, write1) == Run(path, client, reader, parser, write2)
  {
  }

  /** Twenty URLs are all listed with no note; twenty-one get the note. */
  lemma PreviewBoundary(urls: seq<string>)
    requires |urls| == PreviewLimit + 1
    ensures Preview(urls[..PreviewLimit]).shown == urls[..PreviewLimit]
    ensures !Preview(urls[..PreviewLimit]).fullListNote
    ensures Preview(urls).fullListNote && Preview(urls).shown == urls[..PreviewLimit]
  {
  }
}
