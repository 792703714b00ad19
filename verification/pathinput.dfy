/** `get_sitemap_path`: take the sitemap location from the saved config file
    when it is still usable, otherwise ask for one line by line until a line
    passes validation, and remember the answer in the config file. The
    console, the config file and the network probe are parameters. */
module PathInput {
  import opened Wrappers
  import opened Text
  import opened Location
  import opened Net

  const ConfigFile := "sitemap_config.txt"
  const XmlSuffix := ".xml"
  const ProbeTimeoutSeconds := 3

  /** The HEAD request that checks a typed-in web address. */
  function ProbeRequest(url: string): Request {
    Request(Head, url, None, ProbeTimeoutSeconds)
  }

  /** The address answered the probe. The program does not look at the
      status, so a 404 or 500 answer counts as reachable. */
  predicate Answers(client: Client, url: string) {
    client(ProbeRequest(url)).Some?
  }

  /** The rule for a saved path: non-empty, and remote or existing on disk.
      No `.xml` suffix and no network probe are required. */
  predicate SavedAcceptable(path: string, pathExists: PathExists)
    ensures IsRemote(path) ==> SavedAcceptable(path, pathExists)
    ensures !IsRemote(path) ==> (SavedAcceptable(path, pathExists) <==> path != [] && pathExists(path))
  {
    path != [] && (IsRemote(path) || pathExists(path))
  }

  /** The rule for a typed-in path: non-empty, and either a remote address
      that answered the probe or an existing local `.xml` file. The remote
      test is decided first, so a remote-looking path that does not answer is
      rejected even if a local file of that name exists. */
  predicate InteractiveAcceptable(path: string, pathExists: PathExists, client: Client)
    ensures InteractiveAcceptable(path, pathExists, client) ==> SavedAcceptable(path, pathExists)
    ensures InteractiveAcceptable(path, pathExists, client) && !IsRemote(path) ==> EndsWith(path, XmlSuffix)
  {
    && path != []
    && (|| (IsRemote(path) && Answers(client, path))
        || (!IsRemote(path) && pathExists(path) && EndsWith(path, XmlSuffix)))
  }

  /** Reading the config file. `config` is its text, `None` when the file is
      missing or could not be read. The path is the stripped text; it is used
      only when it meets the saved-path rule. */
  function FromConfig(config: Option<string>, pathExists: PathExists): (r: Option<string>)
    ensures r.Some? <==> config.Some? && SavedAcceptable(Strip(config.value), pathExists)
    ensures r.Some? ==> r.value == Strip(config.value)
    ensures r.Some? ==> !IsSpace(r.value[0]) && !IsSpace(r.value[|r.value| - 1])
  {
    match config
    case None => None
    case Some(text) =>
      var path := Strip(text);
      if path != [] && (IsRemote(path) || pathExists(path)) then Some(path) else None
  }

  /** What the prompt makes of one typed line; each rejection carries the
      message the user sees. */
  datatype Verdict =
    | Blank        // nothing typed: ask again silently
    | Accepted
    | Unreachable  // remote address that did not answer
    | NotXml       // existing local path without the `.xml` suffix
    | Missing      // local path that does not exist

  function Judge(line: string, pathExists: PathExists, client: Client): (v: Verdict)
    ensures v == Accepted <==> InteractiveAcceptable(Strip(line), pathExists, client)
    ensures v == Blank <==> IsBlank(line)
    ensures v == Unreachable ==> IsRemote(Strip(line)) && !Answers(client, Strip(line))
    ensures v == NotXml ==> !IsRemote(Strip(line)) && pathExists(Strip(line)) && !EndsWith(Strip(line), XmlSuffix)
    ensures v == Missing ==> !IsRemote(Strip(line)) && !pathExists(Strip(line))
  {
    var path := Strip(line);
    if path == [] then Blank
    else if IsRemote(path) then
      if Answers(client, path) then Accepted else Unreachable
    else if pathExists(path) then
      if EndsWith(path, XmlSuffix) then Accepted else NotXml
    else Missing
  }

  /** The prompt loop over the lines the user types. It stops at the first
      acceptable line and answers its stripped text; `consumed` is how many
      lines it read. `None` means the input ran out first. */
  method Prompt(lines: seq<string>, pathExists: PathExists, client: Client)
    returns (path: Option<string>, consumed: nat)
    ensures consumed <= |lines|
    ensures path.Some? ==>
      && 0 < consumed
      && path.value == Strip(lines[consumed - 1])
      && InteractiveAcceptable(path.value, pathExists, client)
    ensures forall i :: 0 <= i < consumed && (path.None? || i < consumed - 1) ==>
      !InteractiveAcceptable(Strip(lines[i]), pathExists, client)
    ensures path.None? ==> consumed == |lines|
  {
    consumed := 0;
    while consumed < |lines|
      invariant consumed <= |lines|
      invariant NoneAcceptable(lines, consumed, pathExists, client)
    {
      var line := lines[consumed];
      if Judge(line, pathExists, client) == Accepted {
        return Some(Strip(line)), consumed + 1;
      }
      NoneAcceptableExtend(lines, consumed, pathExists, client);
      consumed := consumed + 1;
    }
    path := None;
  }

  /** None of the first `n` typed lines is acceptable. */
  predicate NoneAcceptable(lines: seq<string>, n: nat, pathExists: PathExists, client: Client)
    requires n <= |lines|
  {
    forall i :: 0 <= i < n ==> !InteractiveAcceptable(Strip(lines[i]), pathExists, client)
  }

  /** One more unacceptable line keeps the prefix unacceptable. */
  lemma NoneAcceptableExtend(lines: seq<string>, n: nat, pathExists: PathExists, client: Client)
    requires n < |lines|
    requires NoneAcceptable(lines, n, pathExists, client)
    requires !InteractiveAcceptable(Strip(lines[n]), pathExists, client)
    ensures NoneAcceptable(lines, n + 1, pathExists, client)
  {
  }

  /** `get_sitemap_path` as a whole. `saved` is the text written back to the
      config file: the prompted answer, or nothing when the config was used.
      Whichever way the path was obtained it meets the saved-path rule, and a
      written config reads back as the same path on the next run. */
  method GetSitemapPath(config: Option<string>, lines: seq<string>, pathExists: PathExists, client: Client)
    returns (path: Option<string>, consumed: nat, saved: Option<string>)
    ensures FromConfig(config, pathExists).Some? ==>
      path == FromConfig(config, pathExists) && consumed == 0 && saved == None
    ensures FromConfig(config, pathExists).None? ==>
      && saved == path
      && consumed <= |lines|
      && (path.Some? ==>
            && 0 < consumed
            && path.value == Strip(lines[consumed - 1])
            && InteractiveAcceptable(path.value, pathExists, client))
      && (forall i :: 0 <= i < consumed && (path.None? || i < consumed - 1) ==>
            !InteractiveAcceptable(Strip(lines[i]), pathExists, client))
      && (path.None? ==> consumed == |lines|)
    ensures path.Some? ==> SavedAcceptable(path.value, pathExists)
    ensures saved.Some? ==> FromConfig(saved, pathExists) == saved
  {
    var fromConfig := FromConfig(config, pathExists);
    if fromConfig.Some? {
      return fromConfig, 0, None;
    }
    path, consumed := Prompt(lines, pathExists, client);
    saved := path;
    if path.Some? {
      StripIdempotent(lines[consumed - 1]);
    }
  }

  /** An existing file without the `.xml` suffix is taken from the config but
      refused at the prompt. */
  lemma NonXmlFileOnlyFromConfig(client: Client)
    ensures FromConfig(Some("urls.txt"), p => true) == Some("urls.txt")
    ensures Judge("urls.txt", p => true, client) == NotXml
  {
    StripUnchanged("urls.txt");
  }

  /** A remote-looking path that does not answer is refused even if a local
      file of that name exists. */
  lemma SilentRemoteRefused(line: string, pathExists: PathExists, client: Client)
    requires IsRemote(Strip(line)) && !Answers(client, Strip(line))
    ensures Judge(line, pathExists, client) == Unreachable
  {
  }

  /** A probe answered with an error status still accepts the address. */
  lemma ErrorAnswerAccepted(line: string, pathExists: PathExists, client: Client)
    requires IsRemote(Strip(line))
    requires client(ProbeRequest(Strip(line))) == Some(Response(404, []))
    ensures Judge(line, pathExists, client) == Accepted
  {
  }
}
