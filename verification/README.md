# Sitemap URL extractor — a verified model of its core

The program (`main.py`) asks for a sitemap location (or reuses the one saved
in `sitemap_config.txt`), fetches the sitemap over HTTP or reads it from disk,
collects the text of every `<loc>` element, writes the URLs to `urls.txt`
one per line, and prints at most the first twenty of them.

This project models the pure logic between the I/O calls, in Dafny:

- `text.dfy` (`Text`): Python's `str.isspace`, `str.strip`, `startswith`
  and `endswith`.
- `location.dfy` (`Location`): the remote/local decision, a case-sensitive
  test for the prefixes `http://` and `https://`. It is proved equal to a
  reference reading of the scheme (the text before the first `://`).
- `net.dfy` (`Net`): requests, responses and the outside collaborators as
  values. These are the HTTP client, the file reader, `os.path.exists` and
  the XML parser. Each one is a total function that the caller supplies,
  and `None` stands for "raised an exception". `raise_for_status` fails for
  statuses 400 to 599.
- `sitemap.dfy` (`Sitemap`): `parse_sitemap`. It sends a GET with the
  `Mozilla/5.0` user agent and a 10-second timeout, or reads the file. It
  keeps the `<loc>` texts whose stripped form is non-empty, unchanged and
  in document order. An empty result becomes `None`. A text counts as
  blank when every character is whitespace. The contract of `Text.Strip`
  proves this equals the program's test, "strips to the empty string".
- `pathinput.dfy` (`PathInput`): `get_sitemap_path`. It covers the
  saved-path rule, the rule for a typed-in path (HEAD probe with a 3-second
  timeout, `.xml` suffix), the prompt loop over typed lines, and the path
  written back to the config file.
- `output.dfy` (`Output`): the file body written by `save_urls`, the
  console preview, and the `__main__` flow after the path is known.
- `wrappers.dfy` (`Wrappers`): the `Option` type.

Every `<loc>` is collected flatly, so the entries of a sitemap index come
back as ordinary URLs and are never fetched. For a typed-in path, the remote test is decided first. So a path
that looks remote but does not answer the probe is rejected, even if a
local file of that name exists.

## Model

| member | source | states |
|---|---|---|
| Text.Strip | main.py:79 | the stripped text is empty exactly when the input is all Python whitespace; otherwise it starts and ends with a non-space character |
| Text.StripMargins | main.py:33 | stripping removes only whitespace: the result is a contiguous slice of the input, and everything cut from either end is whitespace |
| Text.StripUnchanged | main.py:21 | a string with no whitespace at either end is not changed by stripping |
| Text.StripIdempotent | main.py:53-54 | stripping twice gives the same text as stripping once, so a saved path reads back unchanged |
| Location.IsRemote | main.py:66 | a path is treated as remote exactly when its scheme, the text before the first `://`, is `http` or `https` |
| Location.WebPrefixIffWebScheme | main.py:66 | starting with `http://` or `https://` is the same as having the scheme `http` or `https`, in both directions |
| Location.UpperCaseSchemeIsLocal | main.py:38 | the test is case-sensitive: `HTTP://a` has scheme `HTTP` but is read as a local path |
| Sitemap.FetchContent | main.py:66-75 | a remote path yields the body of the GET exactly when the client answered with a status below 400 or from 600 up; a local path yields whatever the file read gives |
| Sitemap.KeepNonBlank | main.py:79 | the kept texts are never blank and are at most as many as the `<loc>` elements |
| Sitemap.KeepNonBlankMembers | main.py:79 | a text appears in the result exactly when it is among the `<loc>` texts and is not blank |
| Sitemap.KeepNonBlankCounts | main.py:79 | each non-blank text appears as many times as in the document; blank texts do not appear |
| Sitemap.KeepNonBlankAppend | main.py:79 | filtering a concatenation gives the concatenation of the filtered parts, so document order is kept |
| Sitemap.KeepNonBlankSingle | main.py:79 | one `<loc>` text is kept, unstripped, exactly when it is not blank |
| Sitemap.LocPositions | main.py:79 | the comprehension as a loop: the kept URLs come, in rank order, from strictly increasing positions, and those positions are exactly the indices of the non-blank `<loc>` texts |
| Sitemap.ParseSitemap | main.py:61-88 | the result is never an empty list: it is the non-blank `<loc>` texts of the fetched document, or `None` when the fetch, status, read or parse fails or nothing non-blank is found; each URL is one of the `<loc>` texts |
| Sitemap.RemoteIgnoresDisk | main.py:66-71 | a remote path never reads the disk: the result does not depend on the file reader |
| Sitemap.LocalIgnoresNetwork | main.py:72-75 | a local path never uses the network: the result does not depend on the HTTP client |
| Sitemap.ErrorStatusFails | main.py:69-70 | a 4xx or 5xx response gives `None`, whatever its body holds |
| Sitemap.BlankEntryDropped | main.py:79 | three usable `<loc>` entries plus one whitespace-only entry give exactly the three URLs, in order |
| PathInput.SavedAcceptable | main.py:22 | a remote saved path is always usable; any other saved path is usable exactly when it is non-empty and exists on disk |
| PathInput.InteractiveAcceptable | main.py:34-46 | a typed path that is accepted also meets the saved-path rule, and if it is not remote it ends in `.xml` |
| PathInput.FromConfig | main.py:18-23 | the saved path is the stripped config text; it is used exactly when it is non-empty and is remote or exists, with no `.xml` check and no probe |
| PathInput.Judge | main.py:33-49 | a typed line is accepted exactly when its stripped text is non-empty and is either remote and answering the probe, or local, existing and ending in `.xml`; the verdict is blank exactly for whitespace-only lines, and each rejection names its cause |
| PathInput.Prompt | main.py:32-49 | the prompt returns the stripped first acceptable line; every earlier line was unacceptable; `None` only when no line was acceptable |
| PathInput.GetSitemapPath | main.py:14-58 | a usable config path wins without reading input; otherwise the answer is the stripped first acceptable typed line, every earlier line was unacceptable, and that answer is written back; every returned path meets the saved-path rule, and the written config reads back as the same path |
| PathInput.NonXmlFileOnlyFromConfig | main.py:44-47 | an existing `urls.txt` is taken from the config but refused at the prompt as not XML |
| PathInput.SilentRemoteRefused | main.py:38-43 | a remote-looking path that does not answer the probe is refused, whatever the local file system holds |
| PathInput.ErrorAnswerAccepted | main.py:39-41 | a probe answered with 404 still accepts the address, because the status is not checked |
| Output.SaveUrls | main.py:91-99 | saving succeeds exactly when the write succeeds; the text written is empty for an empty list and otherwise the newline-joined list plus one final newline |
| Output.FileBody | main.py:95 | the body is empty only for an empty list; it has at least one character per URL and otherwise ends in a newline |
| Output.FileBodyLines | main.py:91-96 | if no URL holds a newline, reading the saved file line by line gives back exactly the saved list |
| Output.FileBodyAppend | main.py:95 | the body of a concatenated list is the concatenation of the bodies |
| Output.FileBodyIsJoinedLines | main.py:115 | for a non-empty list, the file body is the newline-joined listing plus one final newline |
| Output.Preview | main.py:109-119 | the first `min(count, 20)` URLs are listed; the "full list saved" note appears exactly when URLs are left out, that is when there are more than 20 |
| Output.PreviewIsFilePrefix | main.py:108-118 | the printed listing plus a newline is a prefix of the saved file |
| Output.PreviewMatchesFileLines | main.py:108-118 | the listed URLs are the first lines of the saved file |
| Output.PreviewBoundary | main.py:113-119 | 20 URLs are all listed with no note; 21 URLs list the first 20 and add the note |
| Output.Run | main.py:105-119 | nothing is saved when parsing fails; the preview appears exactly when a non-empty list was parsed and saved, and it is then exactly the preview of the parsed list: every URL counted, the first `min(count, 20)` listed, and the "first 20" heading exactly when there are more than 20 |
| Output.ParseFailureWritesNothing | main.py:108 | when parsing fails the writer is never consulted: any writer gives the same outcome |

## Left out

- Console encoding setup (`configure_console`): platform I/O with no logic.
- The printed messages and the `print` calls themselves. The verdicts (`PathInput.Verdict`) and outcomes (`Output.Outcome`) record which message would be shown.
- HTTP GET and HEAD, file reads and writes, and `os.path.exists`. These are parameters. The model receives their answers and cannot look inside them.
- XML parsing by the external library. Its result is a parameter: the texts of the `<loc>` elements in document order, or `None` when parsing raised.
- The separate check that the config file exists, and exceptions raised while reading it, both become a config value of `None`. A failed config write is ignored by the program, so the model only reports the text it would write.
- The end of input during the prompt, a keyboard interrupt and `sys.exit(1)`. These are process control. The prompt model returns `None` when its lines run out.
- Line endings on disk. `urls.txt` is opened in text mode, so the platform may translate each `'\n'` when writing, and Python's text-mode reading also splits at `'\r'`. `Output.Lines` reads "line by line" as splitting the written text at `'\n'` only.
