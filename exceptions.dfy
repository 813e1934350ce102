/**
  The Python exceptions that the two try-blocks of the downloader can see, the
  classes their `except` clauses name, and the outcome of one HTTP GET made
  with the `requests` library, with the network itself abstracted away.
 */
module Exceptions {

  /** The outcome of `requests.get(...)` followed by `raise_for_status()`.
      The body that a successful request delivers is abstracted to a value of type T. */
  datatype Fetch<T> =
    | HttpErrorStatus(status: int)  // raise_for_status() raised HTTPError with this status; it
                                    // does so only for 400..599, but any status is admitted here
    | ConnectionFailure             // requests.exceptions.ConnectionError (DNS, refused, reset)
    | TimeoutFailure                // requests.exceptions.Timeout
    | RequestFailure                // any other requests.exceptions.RequestException
    | OSFailure                     // a bare OSError from the request machinery, not a
                                    // RequestException (for instance an unreadable CA bundle path)
    | OtherFailure                  // any other exception that does not come from requests
    | Delivered(body: T)

  /** A concrete exception value raised inside a try-block. */
  datatype Raised =
    | HTTPError(status: int)
    | ConnectionError
    | Timeout
    | OtherRequestException
    | ParsingError      // the downloader's own ParsingError, raised when no og:image URL is found
    | OSError           // a failure of open(), write() or the request machinery; IOError is an alias of OSError
    | OtherException    // anything else, for instance a crash inside the HTML parser

  /** The exception classes named by the `except` clauses of the downloader. */
  datatype ExceptionClass =
    | HTTPErrorClass
    | ConnectionErrorClass
    | TimeoutClass
    | RequestExceptionClass
    | IOErrorClass
    | ExceptionBase

  /** `isinstance(e, c)`: in `requests`, HTTPError, ConnectionError and Timeout
      derive from RequestException, which itself derives from IOError; the
      downloader's ParsingError derives only from Exception. */
  predicate IsA(e: Raised, c: ExceptionClass)
  {
    match c
    case HTTPErrorClass => e.HTTPError?
    case ConnectionErrorClass => e.ConnectionError?
    case TimeoutClass => e.Timeout?
    case RequestExceptionClass => e.HTTPError? || e.ConnectionError? || e.Timeout? || e.OtherRequestException?
    case IOErrorClass => e.HTTPError? || e.ConnectionError? || e.Timeout? || e.OtherRequestException? || e.OSError?
    case ExceptionBase => true
  }

  /** The exception a failed fetch raises. */
  function FetchFailure<T>(fetch: Fetch<T>): (e: Raised)
    requires !fetch.Delivered?
    ensures IsA(e, RequestExceptionClass) <==> !(fetch.OSFailure? || fetch.OtherFailure?)
    ensures IsA(e, IOErrorClass) <==> !fetch.OtherFailure?
    ensures IsA(e, HTTPErrorClass) <==> fetch.HttpErrorStatus?
    ensures fetch.HttpErrorStatus? ==> e.status == fetch.status
  {
    match fetch
    case HttpErrorStatus(status) => HTTPError(status)
    case ConnectionFailure => ConnectionError
    case TimeoutFailure => Timeout
    case RequestFailure => OtherRequestException
    case OSFailure => OSError
    case OtherFailure => OtherException
  }

  /** How a try-block ended: it returned a value or raised an exception. */
  datatype Completion<T> = Returned(value: T) | Threw(exception: Raised)

  /** Every exception of `requests` is also an IOError, so an `except IOError`
      clause placed before the request clauses would swallow them. */
  lemma RequestExceptionsAreIOErrors(e: Raised)
    ensures IsA(e, RequestExceptionClass) ==> IsA(e, IOErrorClass)
    ensures IsA(e, HTTPErrorClass) || IsA(e, ConnectionErrorClass) || IsA(e, TimeoutClass)
            ==> IsA(e, RequestExceptionClass)
  {
  }
}
