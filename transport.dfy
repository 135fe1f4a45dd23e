/**
 * The page fetch as the collection loop sees it: one GET request carrying a bearer
 * token, answered by a server the model does not see. `GetProgramData` turns the
 * server's answer into the page body or into the fault that ends the run.
 */
module Transport {

  import opened Catalog

  /** A response body, as raw bytes. */
  type Bytes = seq<bv8>

  /** An HTTP GET with its `Authorization` header value. */
  datatype Request = Get(url: string, authorization: string)

  /** What the server does with one request: no response at all (the request could not
      be built or sent), or a status code with a body that could or could not be read. */
  datatype Exchange = NoResponse | Reply(statusCode: int, body: Option<Bytes>)

  /** Why a run is aborted. None of these is recovered from. */
  datatype Fault = TransportError | UpstreamStatus(code: int) | ParseError

  datatype Result<T> = Ok(value: T) | Err(fault: Fault)

  const StatusOK := 200

  /** The show whose episodes are collected, and the URL of its first page. */
  const ShowsEndpoint := "https://api.spotify.com/v1/shows/"
  const Program := "4zqDMbg9WSpC5l81gJCfEc"
  const ShowUrl := ShowsEndpoint + Program

  const BearerPrefix := "Bearer "

  /** The `Authorization` header value sent with every page request. */
  function Authorization(token: string): (h: string)
    ensures |h| == |BearerPrefix| + |token|
    ensures h[..|BearerPrefix|] == BearerPrefix && h[|BearerPrefix|..] == token
  {
    BearerPrefix + token
  }

  /** The request for the page at `url`. */
  function PageRequest(token: string, url: string): Request
  {
    Get(url, Authorization(token))
  }

  /** The body of a successful exchange; a missing response, a status other than 200
      or an unreadable body is a fault. The status is checked before the body is read. */
  function GetProgramData(x: Exchange): (r: Result<Bytes>)
    ensures r.Ok? <==> x.Reply? && x.statusCode == StatusOK && x.body.Some?
    ensures r.Ok? ==> r.value == x.body.value
    ensures x.Reply? && x.statusCode != StatusOK ==> r == Err(UpstreamStatus(x.statusCode))
    ensures x.NoResponse? || (x.Reply? && x.statusCode == StatusOK && x.body.None?) ==> r == Err(TransportError)
  {
    match x
    case NoResponse => Err(TransportError)
    case Reply(code, body) =>
      if code != StatusOK then Err(UpstreamStatus(code))
      else if body.None? then Err(TransportError)
      else Ok(body.value)
  }
}
