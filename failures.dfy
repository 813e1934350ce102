/**
  The downloader's typed failures. Each error value names the place that raises
  it; its kind is the Python exception class raised there, and its status is the
  HTTP status code the message carries, if any.
 */
module Failures {
  import opened Exceptions

  datatype Option<T> = None | Some(value: T)

  /** InstagramURLError, NetworkError, ParsingError, DownloadError and SaveError. */
  datatype ErrorKind = InvalidURL | Network | Parsing | Download | Save

  datatype DownloaderError =
    // raised by extract_image_urls
    | MalformedPostUrl                // the post URL is empty or lacks the required prefix
    | PostNotFound                    // HTTP 404 on the post page
    | PostClientError(status: int)    // any other 4xx on the post page
    | PostServerError(status: int)    // 5xx on the post page
    | PostHttpError(status: int)      // an HTTP error outside 400..599; raise_for_status() never
                                      // raises one, so this branch is unreachable in practice
    | PostConnectionError
    | PostTimeout
    | PostRequestError
    | UnexpectedParsing(cause: Raised) // the catch-all clause; cause is the exception it caught
    // raised by download_image
    | ImageHttpError(status: int)
    | ImageConnectionError
    | ImageTimeout
    | ImageRequestError
    | ImageSaveError
    | UnexpectedDownload
  {
    function Kind(): ErrorKind
    {
      match this
      case MalformedPostUrl | PostNotFound | PostClientError(_) => InvalidURL
      case PostServerError(_) | PostHttpError(_) | PostConnectionError | PostTimeout | PostRequestError => Network
      case UnexpectedParsing(_) => Parsing
      case ImageHttpError(_) | ImageRequestError | UnexpectedDownload => Download
      case ImageConnectionError | ImageTimeout => Network
      case ImageSaveError => Save
    }

    /** The HTTP status code that the error's message reports. For
        PostHttpError the message only interpolates the HTTPError itself, whose
        text starts with the status; that branch is unreachable in practice. */
    function Status(): Option<int>
    {
      match this
      case PostNotFound => Some(404)
      case PostClientError(s) => Some(s)
      case PostServerError(s) => Some(s)
      case PostHttpError(s) => Some(s)
      case ImageHttpError(s) => Some(s)
      case _ => None
    }
  }

  datatype Result<T> = Success(value: T) | Failure(error: DownloaderError)
}
