/**
  download_image: fetch one image as a stream of chunks, open the target file
  for binary writing (which truncates it) and append each chunk in order,
  mapping every failure to a typed error.
 */
module Download {
  import opened Exceptions
  import opened Failures

  newtype Byte = x: int | 0 <= x < 256
  type Chunk = seq<Byte>

  /** The image request: its failure, or the chunks `iter_content` yields. */
  type ImageFetch = Fetch<seq<Chunk>>

  /** Where saving goes wrong: not at all, at open() with an OSError, at open()
      with an exception that is not an OSError (a ValueError for a save path
      holding a NUL character, say), or at the write of the chunk with the given
      index. */
  datatype DiskFault = NoDiskFault | OpenFails | OpenRaisesOther | WriteFails(chunkIndex: nat)

  /** The bytes of a stream of chunks, in order. */
  function Concat(chunks: seq<Chunk>): (bytes: seq<Byte>)
  {
    if chunks == [] then [] else chunks[0] + Concat(chunks[1..])
  }

  lemma {:induction false} ConcatAppend(a: seq<Chunk>, b: seq<Chunk>)
    ensures Concat(a + b) == Concat(a) + Concat(b)
  {
    if a == [] {
      assert a + b == b;
    } else {
      assert (a + b)[1..] == a[1..] + b;
      ConcatAppend(a[1..], b);
    }
  }

  /** The file at the save path. */
  class LocalFile {
    var contents: seq<Byte>

    constructor (existing: seq<Byte>)
      ensures contents == existing
    {
      contents := existing;
    }

    /** open(path, 'wb'): on success the file is truncated; a refused open
        leaves it as it was. */
    method Open(refused: bool) returns (isOpen: bool)
      modifies this
      ensures isOpen == !refused
      ensures contents == if isOpen then [] else old(contents)
    {
      isOpen := !refused;
      if isOpen {
        contents := [];
      }
    }

    /** f.write(chunk): appends the chunk, unless the write is refused. */
    method Write(chunk: Chunk, refused: bool) returns (written: bool)
      modifies this
      ensures written == !refused
      ensures contents == if written then old(contents) + chunk else old(contents)
    {
      written := !refused;
      if written {
        contents := contents + chunk;
      }
    }
  }

  /** Whether the filesystem fails while `count` chunks are being saved. */
  predicate SaveFails(fault: DiskFault, count: nat)
  {
    fault.OpenFails? || fault.OpenRaisesOther? || (fault.WriteFails? && fault.chunkIndex < count)
  }

  /** The exception a failing save raises. */
  function SaveException(fault: DiskFault): (e: Raised)
    ensures IsA(e, IOErrorClass) <==> !fault.OpenRaisesOther?
  {
    if fault.OpenRaisesOther? then OtherException else OSError
  }

  /** How the try-block of download_image ends. */
  function DownloadAttempt(fetch: ImageFetch, fault: DiskFault): (c: Completion<bool>)
    ensures c.Returned? ==> c.value
  {
    match fetch
    case Delivered(chunks) => if SaveFails(fault, |chunks|) then Threw(SaveException(fault)) else Returned(true)
    case _ => Threw(FetchFailure(fetch))
  }

  /** The except-clauses of download_image, tried in order. */
  function HandleImageException(e: Raised): (err: DownloaderError)
    ensures err.Kind() == Save <==> e.OSError?
    ensures err == UnexpectedDownload <==> !IsA(e, IOErrorClass)
    ensures err.Kind() == Network <==> e.ConnectionError? || e.Timeout?
  {
    if IsA(e, HTTPErrorClass) then ImageHttpError(e.status)
    else if IsA(e, ConnectionErrorClass) then ImageConnectionError
    else if IsA(e, TimeoutClass) then ImageTimeout
    else if IsA(e, RequestExceptionClass) then ImageRequestError
    else if IsA(e, IOErrorClass) then ImageSaveError
    else UnexpectedDownload
  }

  /** The result of download_image. */
  function DownloadOutcome(fetch: ImageFetch, fault: DiskFault): (r: Result<bool>)
    ensures r.Success? ==> r.value
    ensures r.Failure? ==> r.error.Kind() in {Network, Download, Save}
  {
    match DownloadAttempt(fetch, fault)
    case Returned(ok) => Success(ok)
    case Threw(e) => Failure(HandleImageException(e))
  }

  /** The contents of the file after download_image, given its contents before. */
  function FileAfter(before: seq<Byte>, fetch: ImageFetch, fault: DiskFault): seq<Byte>
  {
    match fetch
    case Delivered(chunks) =>
      (match fault
       case OpenFails | OpenRaisesOther => before
       case WriteFails(k) => if k < |chunks| then Concat(chunks[..k]) else Concat(chunks)
       case NoDiskFault => Concat(chunks))
    case _ => before
  }

  /** download_image, step by step. */
  method DownloadImage(fetch: ImageFetch, fault: DiskFault, file: LocalFile) returns (r: Result<bool>)
    modifies file
    ensures r == DownloadOutcome(fetch, fault)
    ensures file.contents == FileAfter(old(file.contents), fetch, fault)
  {
    var raised: Raised;
    match fetch {
      case Delivered(chunks) =>
        var isOpen := file.Open(fault.OpenFails? || fault.OpenRaisesOther?);
        if isOpen {
          for i := 0 to |chunks|
            invariant file.contents == Concat(chunks[..i])
            invariant !(fault.WriteFails? && fault.chunkIndex < i)
          {
            var written := file.Write(chunks[i], fault == WriteFails(i));
            if !written {
              return Failure(HandleImageException(OSError));
            }
            assert chunks[..i + 1] == chunks[..i] + [chunks[i]];
            ConcatAppend(chunks[..i], [chunks[i]]);
            assert Concat([chunks[i]]) == chunks[i] + Concat([]);
          }
          assert chunks[..|chunks|] == chunks;
          return Success(true);
        }
        raised := SaveException(fault);
      case _ =>
        raised := FetchFailure(fetch);
    }
    r := Failure(HandleImageException(raised));
  }

  /** download_image succeeds exactly when the image was delivered and every
      filesystem operation went through; it never reports False. */
  lemma DownloadSucceedsIff(fetch: ImageFetch, fault: DiskFault)
    ensures DownloadOutcome(fetch, fault).Success? <==>
            fetch.Delivered? && !SaveFails(fault, |fetch.body|)
    ensures DownloadOutcome(fetch, fault) != Success(false)
  {
  }

  /** After a successful download the file holds exactly the received chunks,
      whatever it held before. */
  lemma SuccessfulDownloadStoresStream(before: seq<Byte>, fetch: ImageFetch, fault: DiskFault)
    requires DownloadOutcome(fetch, fault).Success?
    ensures FileAfter(before, fetch, fault) == Concat(fetch.body)
  {
  }

  /** Downloading the same image twice leaves the file as one download does. */
  lemma DownloadIdempotent(before: seq<Byte>, fetch: ImageFetch, fault: DiskFault)
    ensures FileAfter(FileAfter(before, fetch, fault), fetch, fault) == FileAfter(before, fetch, fault)
  {
  }

  /** A failure part-way through the writes leaves the chunks written before it. */
  lemma FailedWriteLeavesPrefix(before: seq<Byte>, chunks: seq<Chunk>, k: nat)
    requires k < |chunks|
    ensures FileAfter(before, Delivered(chunks), WriteFails(k)) == Concat(chunks[..k])
    ensures Concat(chunks) == Concat(chunks[..k]) + Concat(chunks[k..])
  {
    assert chunks == chunks[..k] + chunks[k..];
    ConcatAppend(chunks[..k], chunks[k..]);
  }

  /** The error mapping of download_image. A bare OSError raised by the request
      itself is not a `requests` exception, so it reaches the IOError clause and
      is reported as a Save error although nothing was saved; an exception from
      open() that is not an OSError falls through to the catch-all clause and is
      reported as a Download error. */
  lemma DownloadErrorMapping(fetch: ImageFetch, fault: DiskFault)
    ensures fetch.HttpErrorStatus? ==>
            DownloadOutcome(fetch, fault) == Failure(ImageHttpError(fetch.status))
            && DownloadOutcome(fetch, fault).error.Kind() == Download
            && DownloadOutcome(fetch, fault).error.Status() == Some(fetch.status)
    ensures fetch.ConnectionFailure? || fetch.TimeoutFailure? ==>
            DownloadOutcome(fetch, fault).Failure? && DownloadOutcome(fetch, fault).error.Kind() == Network
    ensures fetch.RequestFailure? || fetch.OtherFailure? ==>
            DownloadOutcome(fetch, fault).Failure? && DownloadOutcome(fetch, fault).error.Kind() == Download
    ensures fetch.OSFailure? ==> DownloadOutcome(fetch, fault) == Failure(ImageSaveError)
    ensures fetch.Delivered? && fault.OpenRaisesOther? ==>
            DownloadOutcome(fetch, fault) == Failure(UnexpectedDownload)
    ensures (DownloadOutcome(fetch, fault).Failure? && DownloadOutcome(fetch, fault).error.Kind() == Save) <==>
            fetch.OSFailure? || (fetch.Delivered? && SaveFails(fault, |fetch.body|) && !fault.OpenRaisesOther?)
  {
  }

  /** Every exception of `requests` is an IOError, yet none of them reaches the
      IOError clause: the request clauses come first. */
  lemma RequestErrorsNeverReachSaveClause(e: Raised)
    requires IsA(e, RequestExceptionClass)
    ensures IsA(e, IOErrorClass)
    ensures HandleImageException(e).Kind() != Save
  {
  }

  /** The unit test's single chunk b"fakeimagedata" ends up in the file as it is. */
  lemma SingleChunkExample(before: seq<Byte>)
    ensures var data: Chunk := [102, 97, 107, 101, 105, 109, 97, 103, 101, 100, 97, 116, 97];
      && DownloadOutcome(Delivered([data]), NoDiskFault) == Success(true)
      && FileAfter(before, Delivered([data]), NoDiskFault) == data
  {
    var data: Chunk := [102, 97, 107, 101, 105, 109, 97, 103, 101, 100, 97, 116, 97];
    assert Concat([data]) == data + Concat([]);
  }
}
