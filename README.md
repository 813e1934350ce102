# Instagram image downloader — verified model

This project models the decision logic of `instagram_image_downloader/downloader.py`, a command-line
tool that fetches a public Instagram post page, reads the image URLs advertised by its `og:image`
meta tags, and downloads each image into an `instagram_downloads` directory.

The network, the HTML parser and the filesystem are replaced by input values:

- a page fetch is a `Fetch<PageBody>`: an HTTP error status, a connection failure, a timeout,
  another `requests` failure, a bare `OSError` raised by the request machinery (an unreadable CA
  bundle, for instance), any other non-`requests` failure, or a delivered body that is either a
  parser crash or the page's sequence of `<meta>` tags, each with an optional `property` and
  `content`;
- an image fetch is a `Fetch<seq<Chunk>>`, the delivered body being the chunks `iter_content` yields;
- the filesystem is a `LocalFile` object holding a byte sequence, plus a `DiskFault` saying whether
  `open` fails with an OSError, `open` raises some other exception (a ValueError for a save path
  holding a NUL character, for instance), or the write of a given chunk fails;
- in `main`, the path part of `urlparse` and the outcome of each `download_image` call are
  function parameters.

Modules, one per concern of the source file:

- `Exceptions` (exceptions.dfy): fetch outcomes, the exception values raised inside the two
  try-blocks, and the class hierarchy the `except` clauses test. That hierarchy includes
  `RequestException` deriving from `IOError`.
- `Failures` (failures.dfy): the five error kinds (`InvalidURL`, `Network`, `Parsing`, `Download`,
  `Save`). Each error value names the `raise` statement that produced it. `Kind()` gives the
  exception class and `Status()` the HTTP status its message carries.
- `Extract` (extract.dfy): `extract_image_urls`. There is a specification function
  `ExtractOutcome`, and a method `ExtractImageUrls` that follows the code step by step, its
  `og:image` loop included.
- `Download` (download.dfy): `download_image`. It is written as a method over a `LocalFile` that
  truncates on open and appends chunk by chunk. It is proved against `DownloadOutcome` and
  `FileAfter`.
- `Filename` (filename.dfy): the file name `main` derives from an image URL. This covers POSIX
  `os.path.basename`, `os.path.splitext`, the extension whitelist and the `image_<n>.jpg` fallback.
- `Cli` (cli.dfy): the per-image loop of `main` and the run as a whole. If extraction fails the run
  ends; otherwise every image is attempted and successes are counted.

Each `except` ladder is written as a chain of `if IsA(e, Class)` tests in source order, so it is
first-match by construction. Two consequences are proved:

- the `ParsingError` raised for a page without image URLs is caught again by the catch-all clause of
  the same function. It reaches the caller as `UnexpectedParsing(ParsingError)`, still of kind
  `Parsing` (`Extract.MissingImageTagsRewrapped`);
- `requests` errors are `IOError`s, yet never reach `download_image`'s `IOError` clause
  (`Download.RequestErrorsNeverReachSaveClause`).

The save file is opened with `'wb'` (downloader.py:149), which truncates an existing file and is
not an exclusive open. The 10-second timeout and the User-Agent header are literals in the code
(downloader.py:65-68 and 140-144).

## Model

| member | source | states |
|---|---|---|
| `Exceptions.IsA` | instagram_image_downloader/downloader.py:93-111 | no contract: the `isinstance` test of each `except` clause, with HTTPError, ConnectionError and Timeout under RequestException, RequestException and OSError under IOError, and everything under Exception; characterised by `Exceptions.RequestExceptionsAreIOErrors` |
| `Failures.DownloaderError.Kind` | instagram_image_downloader/downloader.py:59-168 | no contract: the exception class raised at each `raise` site; characterised by `Extract.HandlePageException`, `Extract.PageStatusClassification`, `Download.HandleImageException` and `Download.DownloadErrorMapping` |
| `Failures.DownloaderError.Status` | instagram_image_downloader/downloader.py:93-157 | no contract: the HTTP status code the raised error's message reports, for the page errors at :95-102 and the image error at :157; characterised by `Extract.PageStatusClassification` and `Download.DownloadErrorMapping` |
| `Exceptions.FetchFailure` | instagram_image_downloader/downloader.py:68-70 | a failed request raises a `requests` exception exactly when the failure comes from `requests`, an IOError exactly when it comes from `requests` or is a bare OSError, and an HTTPError exactly for an error status, carrying that status |
| `Exceptions.RequestExceptionsAreIOErrors` | instagram_image_downloader/downloader.py:155-166 | HTTPError, ConnectionError and Timeout are RequestExceptions, and every RequestException is an IOError, which is why the order of the `except` clauses matters |
| `Extract.ValidPostUrl` | instagram_image_downloader/downloader.py:58 | no contract: the post URL is non-empty and starts with `https://www.instagram.com/p/`; characterised by `Extract.ValidPostUrlIsPrefixTest` and `Extract.MalformedPostUrlRejectedBeforeFetch` |
| `Extract.IsImageTag` | instagram_image_downloader/downloader.py:79-82 | no contract: a meta tag whose `property` is `og:image` and whose `content` is present and non-empty; characterised by `Extract.OgImageUrlsMembership` and `Extract.OgImageUrlsEmpty` |
| `Extract.OgImageUrls` | instagram_image_downloader/downloader.py:79-83 | the extracted URLs are never more than the tags and none of them is empty |
| `Extract.OgImageUrlsAppend` | instagram_image_downloader/downloader.py:80-83 | the URLs of two consecutive runs of tags are the URLs of the first run followed by those of the second (document order is kept) |
| `Extract.OgImageUrlsMembership` | instagram_image_downloader/downloader.py:79-83 | a URL is returned if and only if some `og:image` tag carries it as non-empty content |
| `Extract.OgImageUrlsEmpty` | instagram_image_downloader/downloader.py:79-85 | no URL is collected if and only if no tag is an `og:image` tag with non-empty content |
| `Extract.CollectOgImageUrls` | instagram_image_downloader/downloader.py:74-83 | the append loop over the meta tags produces exactly `OgImageUrls` of the page |
| `Extract.PageAttempt` | instagram_image_downloader/downloader.py:61-91 | the try-block only returns a non-empty list, and raises a `requests` exception only when the page was not delivered |
| `Extract.HandlePageException` | instagram_image_downloader/downloader.py:93-113 | the handler ladder gives kind Parsing exactly to exceptions that are not from `requests`, and only ever InvalidURL, Network or Parsing |
| `Extract.ExtractOutcome` | instagram_image_downloader/downloader.py:30-113 | a successful extraction is a non-empty list of non-empty URLs; every failure is InvalidURL, Network or Parsing |
| `Extract.ExtractImageUrls` | instagram_image_downloader/downloader.py:57-113 | the step-by-step method (prefix check, fetch, tag loop, raise, handlers) returns exactly `ExtractOutcome` |
| `Extract.MalformedPostUrlRejectedBeforeFetch` | instagram_image_downloader/downloader.py:57-59 | an empty or unprefixed post URL gives the same InvalidURL error whatever the fetch would have done |
| `Extract.ValidPostUrlIsPrefixTest` | instagram_image_downloader/downloader.py:58 | the emptiness test adds nothing to the prefix test |
| `Extract.PageStatusClassification` | instagram_image_downloader/downloader.py:93-102 | an HTTP error status is InvalidURL if and only if it is in 400..499 and Network otherwise; it is `PostNotFound` if and only if it is 404; 5xx is a server error; the error carries the status |
| `Extract.TransportFailuresAreNetwork` | instagram_image_downloader/downloader.py:103-110 | connection errors, timeouts and other request failures are Network errors without a status |
| `Extract.ExtractSucceedsIff` | instagram_image_downloader/downloader.py:79-86 | extraction succeeds if and only if the URL is valid, the page was parsed and it has an image tag; the result is then exactly the page's image URLs in order |
| `Extract.ParsingFailureIff` | instagram_image_downloader/downloader.py:85-113 | for a valid URL the kind is Parsing if and only if the parser crashed, a non-`requests` failure occurred (a bare OSError included), or the page has no image tag |
| `Extract.MissingImageTagsRewrapped` | instagram_image_downloader/downloader.py:88-113 | a page without image tags fails with the catch-all's Parsing error wrapping the ParsingError raised for it |
| `Extract.ExtractExamples` | instagram_image_downloader/tests/test_downloader.py:22-72 | the one-tag and two-tag pages, the tag-less page and the non-Instagram URL of the unit tests give the expected results |
| `Download.ConcatAppend` | instagram_image_downloader/downloader.py:151-152 | the bytes of two consecutive runs of chunks are the bytes of the first run followed by the bytes of the second |
| `Download.LocalFile.Open` | instagram_image_downloader/downloader.py:149 | opening with `'wb'` either fails and leaves the file alone or succeeds and empties it |
| `Download.LocalFile.Write` | instagram_image_downloader/downloader.py:152 | a write either fails and changes nothing or appends the chunk |
| `Download.DownloadAttempt` | instagram_image_downloader/downloader.py:137-153 | the try-block can only return True |
| `Download.HandleImageException` | instagram_image_downloader/downloader.py:155-168 | the handler ladder gives Save if and only if the exception is an OSError, Network if and only if it is a connection error or timeout, and the catch-all's Download error if and only if it is not an IOError at all |
| `Download.DownloadOutcome` | instagram_image_downloader/downloader.py:115-168 | download_image never reports False, and fails only with Network, Download or Save |
| `Download.FileAfter` | instagram_image_downloader/downloader.py:149-152 | no contract: the file left by the download; `Download.DownloadImage` is proved to produce it, and `Download.SuccessfulDownloadStoresStream`, `Download.DownloadIdempotent` and `Download.FailedWriteLeavesPrefix` characterise it |
| `Download.DownloadImage` | instagram_image_downloader/downloader.py:137-168 | the step-by-step method returns `DownloadOutcome` and leaves the file as `FileAfter` says: untouched when the fetch or the open fails, otherwise truncated and holding the chunks written before any failing write |
| `Download.DownloadSucceedsIff` | instagram_image_downloader/downloader.py:127-153 | download_image returns True if and only if the image was delivered and no open or write failed, and never returns False |
| `Download.SuccessfulDownloadStoresStream` | instagram_image_downloader/downloader.py:148-153 | after a success the file holds exactly the concatenated chunks, whatever it held before |
| `Download.DownloadIdempotent` | instagram_image_downloader/downloader.py:149-152 | downloading the same image twice leaves the file as one download does |
| `Download.FailedWriteLeavesPrefix` | instagram_image_downloader/downloader.py:149-152 | a write failing at chunk k leaves exactly the first k chunks in the file, a prefix of the full image |
| `Download.DownloadErrorMapping` | instagram_image_downloader/downloader.py:155-168 | an HTTP error is a Download error carrying the status; connection errors and timeouts are Network; other request failures and non-`requests` exceptions other than OSError are Download; a bare OSError from the request is Save; an exception other than OSError from `open()` is the catch-all's Download error; Save happens if and only if the request raised a bare OSError or the image arrived and opening or writing raised an OSError |
| `Download.RequestErrorsNeverReachSaveClause` | instagram_image_downloader/downloader.py:155-166 | every `requests` exception is an IOError, yet none of them is reported as a Save error |
| `Download.SingleChunkExample` | instagram_image_downloader/tests/test_downloader.py:109-125 | the test's single chunk `b"fakeimagedata"` is reported as success and is exactly what the file holds |
| `Filename.Basename` | instagram_image_downloader/downloader.py:248 | the basename is the longest suffix of the path without '/': a suffix, free of '/', and preceded by '/' unless it is the whole path |
| `Filename.SplitExt` | instagram_image_downloader/downloader.py:258 | stem and extension concatenate to the name; a non-empty extension starts at the last dot and follows a stem that is not all dots; an empty extension means every dot of the name is a leading dot |
| `Filename.Lower` | instagram_image_downloader/downloader.py:259 | lower-casing keeps the length and maps each character on its own |
| `Filename.Decimal` | instagram_image_downloader/downloader.py:254 | the number in the fallback name is a non-empty string of decimal digits |
| `Filename.DecimalNoLeadingZero` | instagram_image_downloader/downloader.py:254 | the numeral of a positive number does not start with '0', so with `Filename.DecimalRoundTrip` it is the canonical numeral `str(i+1)` |
| `Filename.DecimalRoundTrip` | instagram_image_downloader/downloader.py:254 | the digits of the number read back as the number |
| `Filename.FallbackName` | instagram_image_downloader/downloader.py:254 | no contract: `image_<i+1>.jpg`; characterised by `Filename.FallbackNameInjective` and, through the digits, `Filename.DecimalRoundTrip` |
| `Filename.FallbackNameInjective` | instagram_image_downloader/downloader.py:254 | two positions share a fallback name only if they are the same position |
| `Filename.DeriveFilename` | instagram_image_downloader/downloader.py:247-260 | the derived name is a plain file name (non-empty, no '/', not `.` or `..`) that ends in a whitelisted extension, compared case-insensitively |
| `Filename.DeriveFilenameCases` | instagram_image_downloader/downloader.py:253-260 | a basename without a dot gives `image_<i+1>.jpg`; one with a whitelisted extension is kept; any other gives its stem followed by `.jpg` |
| `Filename.DottedNameIgnoresIndex` | instagram_image_downloader/downloader.py:253-260 | the position matters only for the fallback: a basename with a dot yields the same name at every position |
| `Filename.FallbackNamesDistinct` | instagram_image_downloader/downloader.py:253-254 | two fallback names at different positions differ |
| `Filename.EmptyBasenameFallsBack` | instagram_image_downloader/downloader.py:253-254 | a path ending in '/' has an empty basename, so the image gets the fallback name of its position |
| `Cli.BasenameOfJoined` | instagram_image_downloader/downloader.py:263 | the basename of `dir/name` is `name` when the name has no '/' |
| `Cli.SavePath` | instagram_image_downloader/downloader.py:263 | no contract: the download directory, a '/', then the file name; characterised by `Cli.BasenameOfJoined` and `Cli.SavePathInsideDownloadDir` |
| `Cli.SavePathInsideDownloadDir` | instagram_image_downloader/downloader.py:262-263 | every save path is a plain file name placed directly in `instagram_downloads` |
| `Cli.SuccessCount` | instagram_image_downloader/downloader.py:241-269 | the number of successes never exceeds the number of attempts |
| `Cli.SuccessCountAppend` | instagram_image_downloader/downloader.py:267-269 | one more attempt raises the count by one exactly when it returned True |
| `Cli.SuccessCountAll` | instagram_image_downloader/downloader.py:286-288 | the count equals the number of images if and only if every attempt succeeded |
| `Cli.SuccessCountNone` | instagram_image_downloader/downloader.py:286 | the count is zero if and only if no attempt succeeded |
| `Cli.PlannedAttempt` | instagram_image_downloader/downloader.py:247-267 | no contract: one pass of the loop, deriving the save path from the URL's path and position and recording what download_image reported; characterised by `Cli.AttemptsForAt` and `Cli.DownloadAll` |
| `Cli.AttemptsFor` | instagram_image_downloader/downloader.py:243 | there is one attempt per image URL |
| `Cli.AttemptsForAt` | instagram_image_downloader/downloader.py:243-282 | the attempt at each position is decided by that URL and position alone, whatever the earlier outcomes |
| `Cli.DownloadAll` | instagram_image_downloader/downloader.py:241-282 | the loop attempts every URL in order with its derived save path, and `successful_downloads` is the number of True results, at most the number of URLs |
| `Cli.FailureCount` | instagram_image_downloader/downloader.py:287-288 | the number of attempts that did not return True, at most the number of attempts |
| `Cli.SuccessesPlusFailures` | instagram_image_downloader/downloader.py:266-288 | every attempt is counted either as a success or as a failure, so the two counts add up to the number of images |
| `Cli.FailureCountPositive` | instagram_image_downloader/downloader.py:287-288 | the failure count is positive if and only if some attempt did not return True |
| `Cli.RunOutcome.FailedDownloads` | instagram_image_downloader/downloader.py:288 | when the success counter is right, the number of images the summary reports as failed is the number of attempts that did not return True |
| `Cli.DownloadPost` | instagram_image_downloader/downloader.py:196-288 | an extraction failure ends the run with that error and nothing downloaded; otherwise every one of the non-empty list of extracted URLs is attempted and the successes are counted |
| `Cli.FailureReportIff` | instagram_image_downloader/downloader.py:284-288 | the summary reports failed images if and only if some attempt did not return True, and the number it reports is the number of failed attempts |

## Left out

- Live network I/O: the `requests.get` calls, the User-Agent header and the 10-second timeout
  (downloader.py:62-68, 138-144). A fetch is an input value.
- HTML parsing by BeautifulSoup (downloader.py:73, 79). The page is its sequence of meta tags, and a
  parser crash is one possible body. The property match done by `find_all` is folded into the
  loop's test in `Extract.CollectOgImageUrls`.
- URL parsing with `urlparse` (downloader.py:247). The path of each image URL is given by the
  function `urlPath`.
- Error message texts. An error records the raise site and the HTTP status the message mentions.
- `main`'s argument parsing, directory creation with `os.makedirs`, and all printing
  (downloader.py:183-239, 284-288). The `except` clauses around extraction (214-228) differ only in
  what they print, so all become `ExtractionFailed`.
- The `if not image_urls` branch (downloader.py:203-208) is not modelled. `Extract.ExtractOutcome`
  proves that a successful extraction is never empty, so the branch is never taken.
- Exceptions that `iter_content` raises part-way through the stream are not modelled. Such errors
  arrive after the file was truncated. In the model, a delivered stream always completes.
- A write that fails part-way through a chunk is modelled as writing none of that chunk.
- A write fails only with an OSError in the model. The chunks are bytes and the file is opened in
  binary mode, so `f.write` has no other failure to report.
- `requests.exceptions.ConnectTimeout` is both a ConnectionError and a Timeout. It is not a separate
  outcome; the ladder would treat it as a connection error.
- Lower-casing is ASCII-only. This is exact for the extension test: every whitelisted extension is
  ASCII, and no non-ASCII character lower-cases to one of their letters.
- Cli.DownloadAll: the loop takes each `download_image` outcome as a function of the URL and save
  path, rather than calling `Download.DownloadImage` on a shared directory. So it does not capture
  that two images with the same derived name overwrite one file while both count as successes.
- Exceptions other than the downloader's own in the per-image loop (downloader.py:281-282) are not
  represented. The loop goes on after them as after any other failure.
- Several of the unit tests expect message texts that the code does not produce, for example
  "Could not find image URLs" (tests/test_downloader.py:67). Messages are not modelled, so the
  examples check only the outcome and the error kind.
