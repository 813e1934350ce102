/**
  extract_image_urls: validate the post URL, fetch the page, and collect the
  `content` of its `og:image` meta tags, mapping every failure to a typed error.
  The HTTP request and the HTML parser are abstracted into a `PageFetch` value.
 */
module Extract {
  import opened Exceptions
  import opened Failures

  const PostUrlPrefix: string := "https://www.instagram.com/p/"
  const OgImageProperty: string := "og:image"

  /** A `<meta>` element of the parsed page: its `property` and `content`
      attributes, each possibly absent. */
  datatype MetaTag = MetaTag(property: Option<string>, content: Option<string>)

  /** What the HTML parser makes of a delivered page: the meta tags in document
      order, or a crash. */
  datatype PageBody = Unparseable | Page(metaTags: seq<MetaTag>)

  type PageFetch = Fetch<PageBody>

  /** The format check made before any request is sent. */
  predicate ValidPostUrl(postUrl: string)
  {
    postUrl != [] && PostUrlPrefix <= postUrl
  }

  /** An `og:image` tag whose `content` attribute is present and non-empty. */
  predicate IsImageTag(tag: MetaTag)
  {
    tag.property == Some(OgImageProperty) && tag.content.Some? && tag.content.value != []
  }

  /** The image URLs a page advertises: the contents of its image tags, in document order. */
  function OgImageUrls(tags: seq<MetaTag>): (urls: seq<string>)
    ensures |urls| <= |tags|
    ensures forall k :: 0 <= k < |urls| ==> urls[k] != []
  {
    if tags == [] then []
    else (if IsImageTag(tags[0]) then [tags[0].content.value] else []) + OgImageUrls(tags[1..])
  }

  /** OgImageUrls distributes over concatenation of documents. */
  lemma {:induction false} OgImageUrlsAppend(a: seq<MetaTag>, b: seq<MetaTag>)
    ensures OgImageUrls(a + b) == OgImageUrls(a) + OgImageUrls(b)
  {
    if a == [] {
      assert a + b == b;
    } else {
      assert (a + b)[1..] == a[1..] + b;
      OgImageUrlsAppend(a[1..], b);
    }
  }

  /** A URL is extracted exactly when some image tag carries it. */
  lemma {:induction false} OgImageUrlsMembership(tags: seq<MetaTag>, url: string)
    ensures url in OgImageUrls(tags) <==>
            exists i :: 0 <= i < |tags| && IsImageTag(tags[i]) && tags[i].content.value == url
  {
    if tags != [] {
      OgImageUrlsMembership(tags[1..], url);
      if exists i :: 1 <= i < |tags| && IsImageTag(tags[i]) && tags[i].content.value == url {
        var i :| 1 <= i < |tags| && IsImageTag(tags[i]) && tags[i].content.value == url;
        assert tags[1..][i - 1] == tags[i];
      }
      if exists i :: 0 <= i < |tags[1..]| && IsImageTag(tags[1..][i]) && tags[1..][i].content.value == url {
        var i :| 0 <= i < |tags[1..]| && IsImageTag(tags[1..][i]) && tags[1..][i].content.value == url;
        assert tags[i + 1] == tags[1..][i];
      }
    }
  }

  /** No URL is extracted exactly when the page has no image tag. */
  lemma {:induction false} OgImageUrlsEmpty(tags: seq<MetaTag>)
    ensures OgImageUrls(tags) == [] <==> forall i :: 0 <= i < |tags| ==> !IsImageTag(tags[i])
  {
    if tags != [] {
      OgImageUrlsEmpty(tags[1..]);
      assert forall i :: 1 <= i < |tags| ==> tags[i] == tags[1..][i - 1];
    }
  }

  /** The loop at the heart of extract_image_urls: walk the `og:image` tags and
      append each non-empty `content`. */
  method CollectOgImageUrls(tags: seq<MetaTag>) returns (imageUrls: seq<string>)
    ensures imageUrls == OgImageUrls(tags)
  {
    imageUrls := [];
    var i := 0;
    while i < |tags|
      invariant 0 <= i <= |tags|
      invariant imageUrls == OgImageUrls(tags[..i])
    {
      var tag := tags[i];
      assert tags[..i + 1] == tags[..i] + [tag];
      OgImageUrlsAppend(tags[..i], [tag]);
      if tag.property == Some(OgImageProperty) {
        var imageUrl := tag.content;
        if imageUrl.Some? && imageUrl.value != [] {
          imageUrls := imageUrls + [imageUrl.value];
        }
      }
      i := i + 1;
    }
    assert tags[..i] == tags;
  }

  /** How the try-block of extract_image_urls ends. The ParsingError raised
      when no URL is found is still inside that block. */
  function PageAttempt(fetch: PageFetch): (c: Completion<seq<string>>)
    ensures c.Returned? ==> c.value != []
    ensures c.Threw? && IsA(c.exception, RequestExceptionClass) ==> !fetch.Delivered?
  {
    match fetch
    case Delivered(Unparseable) => Threw(OtherException)
    case Delivered(Page(tags)) =>
      var urls := OgImageUrls(tags);
      if urls != [] then Returned(urls) else Threw(ParsingError)
    case _ => Threw(FetchFailure(fetch))
  }

  /** The except-clauses of extract_image_urls, tried in order; the first
      whose class the exception belongs to decides the error. */
  function HandlePageException(e: Raised): (err: DownloaderError)
    ensures IsA(e, RequestExceptionClass) <==> err.Kind() != Parsing
    ensures err.Kind() in {InvalidURL, Network, Parsing}
  {
    if IsA(e, HTTPErrorClass) then
      if e.status == 404 then PostNotFound
      else if 400 <= e.status < 500 then PostClientError(e.status)
      else if 500 <= e.status < 600 then PostServerError(e.status)
      else PostHttpError(e.status)
    else if IsA(e, ConnectionErrorClass) then PostConnectionError
    else if IsA(e, TimeoutClass) then PostTimeout
    else if IsA(e, RequestExceptionClass) then PostRequestError
    else UnexpectedParsing(e)
  }

  /** The result of extract_image_urls(postUrl) when the page fetch ends as `fetch`. */
  function ExtractOutcome(postUrl: string, fetch: PageFetch): (r: Result<seq<string>>)
    ensures r.Success? ==> r.value != [] && forall k :: 0 <= k < |r.value| ==> r.value[k] != []
    ensures r.Failure? ==> r.error.Kind() in {InvalidURL, Network, Parsing}
  {
    if !ValidPostUrl(postUrl) then Failure(MalformedPostUrl)
    else
      match PageAttempt(fetch)
      case Returned(urls) => Success(urls)
      case Threw(e) => Failure(HandlePageException(e))
  }

  /** extract_image_urls, step by step. */
  method ExtractImageUrls(postUrl: string, fetch: PageFetch) returns (r: Result<seq<string>>)
    ensures r == ExtractOutcome(postUrl, fetch)
  {
    if postUrl == [] || !(PostUrlPrefix <= postUrl) {
      return Failure(MalformedPostUrl);
    }
    var raised: Raised;
    match fetch {
      case Delivered(Page(tags)) =>
        var imageUrls := CollectOgImageUrls(tags);
        if imageUrls != [] {
          return Success(imageUrls);
        }
        raised := ParsingError;
      case Delivered(Unparseable) =>
        raised := OtherException;
      case _ =>
        raised := FetchFailure(fetch);
    }
    r := Failure(HandlePageException(raised));
  }

  /** A malformed post URL is rejected whatever the network would have done. */
  lemma MalformedPostUrlRejectedBeforeFetch(postUrl: string, fetch: PageFetch, other: PageFetch)
    requires !ValidPostUrl(postUrl)
    ensures ExtractOutcome(postUrl, fetch) == ExtractOutcome(postUrl, other) == Failure(MalformedPostUrl)
    ensures ExtractOutcome(postUrl, fetch).error.Kind() == InvalidURL
  {
  }

  /** The empty-string test is subsumed by the prefix test. */
  lemma ValidPostUrlIsPrefixTest(postUrl: string)
    ensures ValidPostUrl(postUrl) <==> PostUrlPrefix <= postUrl
  {
  }

  /** An HTTP error status on the post page: 4xx is InvalidURL (404 has its own
      error), everything else Network, and the error carries the status. */
  lemma PageStatusClassification(postUrl: string, status: int)
    requires ValidPostUrl(postUrl)
    ensures var r := ExtractOutcome(postUrl, HttpErrorStatus(status));
      && r.Failure?
      && r.error.Status() == Some(status)
      && (r.error.Kind() == InvalidURL <==> 400 <= status < 500)
      && (r.error.Kind() == Network <==> !(400 <= status < 500))
      && (r.error == PostNotFound <==> status == 404)
      && (500 <= status < 600 ==> r.error == PostServerError(status))
  {
  }

  /** Connection errors, timeouts and other request failures are Network errors. */
  lemma TransportFailuresAreNetwork(postUrl: string, fetch: PageFetch)
    requires ValidPostUrl(postUrl)
    requires fetch.ConnectionFailure? || fetch.TimeoutFailure? || fetch.RequestFailure?
    ensures ExtractOutcome(postUrl, fetch).Failure?
    ensures ExtractOutcome(postUrl, fetch).error.Kind() == Network
    ensures ExtractOutcome(postUrl, fetch).error.Status() == None
  {
  }

  /** Extraction succeeds exactly when the page was parsed and has an image tag,
      and then returns exactly the image URLs of the page in document order. */
  lemma ExtractSucceedsIff(postUrl: string, fetch: PageFetch)
    ensures ExtractOutcome(postUrl, fetch).Success? <==>
            && ValidPostUrl(postUrl)
            && fetch.Delivered? && fetch.body.Page?
            && exists i :: 0 <= i < |fetch.body.metaTags| && IsImageTag(fetch.body.metaTags[i])
    ensures ExtractOutcome(postUrl, fetch).Success? ==>
            ExtractOutcome(postUrl, fetch).value == OgImageUrls(fetch.body.metaTags)
  {
    if fetch.Delivered? && fetch.body.Page? {
      OgImageUrlsEmpty(fetch.body.metaTags);
    }
  }

  /** A valid URL fails with Parsing exactly when the fetch delivered something
      that is not a page with an image tag, or failed outside `requests`. */
  lemma ParsingFailureIff(postUrl: string, fetch: PageFetch)
    requires ValidPostUrl(postUrl)
    ensures var r := ExtractOutcome(postUrl, fetch);
      r.Failure? && r.error.Kind() == Parsing <==>
        || fetch.OSFailure?
        || fetch.OtherFailure?
        || fetch == Delivered(Unparseable)
        || (fetch.Delivered? && fetch.body.Page? &&
            forall i :: 0 <= i < |fetch.body.metaTags| ==> !IsImageTag(fetch.body.metaTags[i]))
  {
    if fetch.Delivered? && fetch.body.Page? {
      OgImageUrlsEmpty(fetch.body.metaTags);
    }
  }

  /** The ParsingError raised when no image tag is found is caught again by the
      catch-all clause: it reaches the caller with its kind unchanged, but as the
      cause of the catch-all's error. */
  lemma MissingImageTagsRewrapped(postUrl: string, tags: seq<MetaTag>)
    requires ValidPostUrl(postUrl)
    requires forall i :: 0 <= i < |tags| ==> !IsImageTag(tags[i])
    ensures ExtractOutcome(postUrl, Delivered(Page(tags))) == Failure(UnexpectedParsing(ParsingError))
  {
    OgImageUrlsEmpty(tags);
  }

  /** The two pages of the unit tests: one and two `og:image` tags. */
  lemma ExtractExamples()
    ensures ExtractOutcome("https://www.instagram.com/p/validpost/",
              Delivered(Page([MetaTag(Some("og:image"), Some("http://example.com/image1.jpg"))])))
            == Success(["http://example.com/image1.jpg"])
    ensures ExtractOutcome("https://www.instagram.com/p/validpost/",
              Delivered(Page([MetaTag(Some("og:image"), Some("http://example.com/image1.jpg")),
                              MetaTag(Some("og:image"), Some("http://example.com/image2.jpg"))])))
            == Success(["http://example.com/image1.jpg", "http://example.com/image2.jpg"])
    ensures ExtractOutcome("https://www.instagram.com/p/nopost/", Delivered(Page([]))).error.Kind() == Parsing
    ensures ExtractOutcome("http://example.com/notinstagram", Delivered(Page([]))) == Failure(MalformedPostUrl)
  {
    var first := MetaTag(Some("og:image"), Some("http://example.com/image1.jpg"));
    var second := MetaTag(Some("og:image"), Some("http://example.com/image2.jpg"));
    assert IsImageTag(first) && IsImageTag(second);
    assert OgImageUrls([first]) == ["http://example.com/image1.jpg"] by {
      assert [first][1..] == [];
    }
    assert OgImageUrls([first, second]) == ["http://example.com/image1.jpg", "http://example.com/image2.jpg"] by {
      assert [first, second][1..] == [second];
      assert [second][1..] == [];
    }
    assert ValidPostUrl("https://www.instagram.com/p/validpost/");
    assert ValidPostUrl("https://www.instagram.com/p/nopost/");
    assert "http://example.com/notinstagram"[7] != PostUrlPrefix[7];
  }
}
