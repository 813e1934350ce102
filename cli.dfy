/**
  The part of main() that is decision logic: extract the image URLs, then try
  every image in turn, deriving its save path and counting the downloads that
  report success. Argument parsing, directory creation and printing are not
  modelled; urlparse and download_image appear as the functions `urlPath` and
  `downloadImage`, the outcome each call would have.
 */
module Cli {
  import opened Failures
  import opened Extract
  import opened Filename

  const DownloadDir: string := "instagram_downloads"

  /** os.path.join(download_dir, name), for a name without '/'. */
  function SavePath(fileName: string): string
  {
    DownloadDir + "/" + fileName
  }

  /** The one part of os.path.basename that main() relies on: a path made of a
      directory, a '/', and a name without '/' has that name as its basename. */
  lemma BasenameOfJoined(dir: string, name: string)
    requires '/' !in name
    ensures Basename(dir + "/" + name) == name
  {
    var path := dir + "/" + name;
    assert path[|path| - |name| - 1] == '/';
    assert path[|path| - |name|..] == name;
  }

  /** Every image is saved directly inside the download directory. */
  lemma SavePathInsideDownloadDir(urlPath: string, index: nat)
    ensures var name := DeriveFilename(urlPath, index);
      && SavePath(name) == DownloadDir + "/" + name
      && Basename(SavePath(name)) == name
      && PlainFileName(name)
  {
    BasenameOfJoined(DownloadDir, DeriveFilename(urlPath, index));
  }

  /** One pass of the download loop: the image URL, the path it was saved to,
      and what download_image reported. */
  datatype Attempt = Attempt(imageUrl: string, savePath: string, outcome: Result<bool>)

  /** Only a True result counts as a successful download. */
  predicate Succeeded(attempt: Attempt)
  {
    attempt.outcome == Success(true)
  }

  /** The number of successful downloads among the attempts. */
  function SuccessCount(attempts: seq<Attempt>): (n: nat)
    ensures n <= |attempts|
  {
    if attempts == [] then 0
    else (if Succeeded(attempts[0]) then 1 else 0) + SuccessCount(attempts[1..])
  }

  lemma {:induction false} SuccessCountAppend(attempts: seq<Attempt>, last: Attempt)
    ensures SuccessCount(attempts + [last]) == SuccessCount(attempts) + (if Succeeded(last) then 1 else 0)
  {
    if attempts == [] {
      assert attempts + [last] == [last];
    } else {
      assert (attempts + [last])[1..] == attempts[1..] + [last];
      SuccessCountAppend(attempts[1..], last);
    }
  }

  /** Every attempt succeeded exactly when the count equals the number of attempts. */
  lemma {:induction false} SuccessCountAll(attempts: seq<Attempt>)
    ensures SuccessCount(attempts) == |attempts| <==> forall i :: 0 <= i < |attempts| ==> Succeeded(attempts[i])
  {
    if attempts != [] {
      SuccessCountAll(attempts[1..]);
      assert forall i :: 1 <= i < |attempts| ==> attempts[i] == attempts[1..][i - 1];
    }
  }

  /** No attempt succeeded exactly when the count is zero. */
  lemma {:induction false} SuccessCountNone(attempts: seq<Attempt>)
    ensures SuccessCount(attempts) == 0 <==> forall i :: 0 <= i < |attempts| ==> !Succeeded(attempts[i])
  {
    if attempts != [] {
      SuccessCountNone(attempts[1..]);
      assert forall i :: 1 <= i < |attempts| ==> attempts[i] == attempts[1..][i - 1];
    }
  }

  /** The number of attempts that did not return True. */
  function FailureCount(attempts: seq<Attempt>): (n: nat)
    ensures n <= |attempts|
  {
    if attempts == [] then 0
    else (if Succeeded(attempts[0]) then 0 else 1) + FailureCount(attempts[1..])
  }

  /** Every attempt either succeeded or failed: the two counts partition the attempts. */
  lemma {:induction false} SuccessesPlusFailures(attempts: seq<Attempt>)
    ensures SuccessCount(attempts) + FailureCount(attempts) == |attempts|
  {
    if attempts != [] {
      SuccessesPlusFailures(attempts[1..]);
    }
  }

  /** Some attempt failed exactly when the failure count is positive. */
  lemma {:induction false} FailureCountPositive(attempts: seq<Attempt>)
    ensures FailureCount(attempts) > 0 <==> exists i :: 0 <= i < |attempts| && !Succeeded(attempts[i])
  {
    if attempts != [] {
      FailureCountPositive(attempts[1..]);
      assert forall i :: 1 <= i < |attempts| ==> attempts[i] == attempts[1..][i - 1];
      if !Succeeded(attempts[0]) {
        assert exists i :: 0 <= i < |attempts| && !Succeeded(attempts[i]) by {
          assert !Succeeded(attempts[0]);
        }
      }
    }
  }

  /** The attempt main() makes for the image at 0-based position `index`. */
  function PlannedAttempt(imageUrl: string, index: nat, urlPath: string -> string,
                          downloadImage: (string, string) -> Result<bool>): Attempt
  {
    var path := SavePath(DeriveFilename(urlPath(imageUrl), index));
    Attempt(imageUrl, path, downloadImage(imageUrl, path))
  }

  /** What main() does for the image at a given position, as a function of the
      image URL and the position alone. */
  function MainPlan(urlPath: string -> string, downloadImage: (string, string) -> Result<bool>)
    : (string, nat) -> Attempt
  {
    (imageUrl: string, index: nat) => PlannedAttempt(imageUrl, index, urlPath, downloadImage)
  }

  /** One attempt per URL, in order, each decided by `plan` from the URL and its position. */
  function AttemptsFor(imageUrls: seq<string>, plan: (string, nat) -> Attempt): (attempts: seq<Attempt>)
    ensures |attempts| == |imageUrls|
  {
    if imageUrls == [] then []
    else
      var n := |imageUrls| - 1;
      AttemptsFor(imageUrls[..n], plan) + [plan(imageUrls[n], n)]
  }

  /** The attempt at each position is that URL's own, whatever the others' outcomes. */
  lemma {:induction false} AttemptsForAt(imageUrls: seq<string>, plan: (string, nat) -> Attempt, k: nat)
    requires k < |imageUrls|
    ensures AttemptsFor(imageUrls, plan)[k] == plan(imageUrls[k], k)
  {
    var n := |imageUrls| - 1;
    if k < n {
      AttemptsForAt(imageUrls[..n], plan, k);
      assert imageUrls[..n][k] == imageUrls[k];
    }
  }

  /** The download loop of main(): every image is attempted whatever happened to
      the ones before it, and the counter rises only when download_image reports True. */
  method DownloadAll(imageUrls: seq<string>, urlPath: string -> string,
                     downloadImage: (string, string) -> Result<bool>)
    returns (successfulDownloads: nat, attempts: seq<Attempt>)
    ensures attempts == AttemptsFor(imageUrls, MainPlan(urlPath, downloadImage))
    ensures successfulDownloads == SuccessCount(attempts)
    ensures successfulDownloads <= |imageUrls|
  {
    successfulDownloads := 0;
    attempts := [];
    for i := 0 to |imageUrls|
      invariant attempts == AttemptsFor(imageUrls[..i], MainPlan(urlPath, downloadImage))
      invariant successfulDownloads == SuccessCount(attempts)
    {
      var imgUrl := imageUrls[i];
      var filenameBase := DeriveFilename(urlPath(imgUrl), i);
      var savePath := SavePath(filenameBase);
      var outcome := downloadImage(imgUrl, savePath);
      var attempt := Attempt(imgUrl, savePath, outcome);
      assert imageUrls[..i + 1][..i] == imageUrls[..i];
      assert attempt == MainPlan(urlPath, downloadImage)(imageUrls[i], i);
      SuccessCountAppend(attempts, attempt);
      attempts := attempts + [attempt];
      if outcome == Success(true) {
        successfulDownloads := successfulDownloads + 1;
      }
    }
    assert imageUrls[..|imageUrls|] == imageUrls;
  }

  /** How a run of main() ends: extraction failed, which is terminal, or every
      extracted image was attempted. */
  datatype RunOutcome =
    | ExtractionFailed(error: DownloaderError)
    | Completed(attempts: seq<Attempt>, successfulDownloads: nat)
  {
    /** The number of failed images the summary reports: when the success
        counter is right, it is the number of attempts that did not return True. */
    function FailedDownloads(): (n: nat)
      requires Completed? && successfulDownloads <= |attempts|
      ensures successfulDownloads == SuccessCount(attempts) ==> n == FailureCount(attempts)
    {
      SuccessesPlusFailures(attempts);
      |attempts| - successfulDownloads
    }
  }

  /** main() without the console: extract, then attempt every image. */
  method DownloadPost(postUrl: string, page: PageFetch, urlPath: string -> string,
                      downloadImage: (string, string) -> Result<bool>)
    returns (run: RunOutcome)
    ensures run.ExtractionFailed? <==> ExtractOutcome(postUrl, page).Failure?
    ensures run.ExtractionFailed? ==> run.error == ExtractOutcome(postUrl, page).error
    ensures run.Completed? ==>
              var imageUrls := ExtractOutcome(postUrl, page).value;
              && run.attempts == AttemptsFor(imageUrls, MainPlan(urlPath, downloadImage))
              && |run.attempts| > 0
              && run.successfulDownloads == SuccessCount(run.attempts)
  {
    var extracted := ExtractImageUrls(postUrl, page);
    if extracted.Failure? {
      return ExtractionFailed(extracted.error);
    }
    var successfulDownloads, attempts := DownloadAll(extracted.value, urlPath, downloadImage);
    run := Completed(attempts, successfulDownloads);
  }

  /** The summary reports failures exactly when some image was not downloaded,
      and the number it reports is the number of images that failed. */
  lemma FailureReportIff(attempts: seq<Attempt>)
    ensures var run := Completed(attempts, SuccessCount(attempts));
      && (run.successfulDownloads < |attempts| <==> exists i :: 0 <= i < |attempts| && !Succeeded(attempts[i]))
      && run.FailedDownloads() == FailureCount(attempts)
  {
    SuccessCountAll(attempts);
  }
}
