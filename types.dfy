/**
 The values the proxy passes around: the client request, an upstream
 response, a cache entry, the outcome of one upstream round trip and the
 errors a fetch can fail with.
 */
module Types {

  datatype Option<+T> = None | Some(value: T)

  datatype Result<+R, +E> = Success(value: R) | Failure(error: E)

  /** A base URL of an upstream, or a URL resolved against one. */
  type Url = string

  /** Header names are the lower-case names Node hands over; values as received. */
  type Headers = map<string, string>

  /** A response body, kept as raw bytes. */
  type Bytes = seq<bv8>

  /** The inbound request: `req.method` (as `httpMethod`), the raw path-and-query `req.url`, `req.headers`. */
  datatype Request = Request(httpMethod: string, url: string, headers: Headers)

  /** What the proxy returns to the client and stores in the cache. */
  datatype Response = Response(statusCode: int, headers: Headers, body: Bytes)

  /** A cache entry: the response and the time (milliseconds) it was stored. */
  datatype Entry = Entry(response: Response, timestamp: int)

  /** What one round trip to an upstream gave: a reply with any status, or a transport failure. */
  datatype Outcome = Replied(response: Response) | TransportFailed(message: string)

  /**
   Why one attempt failed: the upstream answered with a status of 400 or more
   (the error names the URL, the status and the body), or the round trip itself failed.
   */
  datatype FetchError =
    | StatusError(url: Url, statusCode: int, body: Bytes)
    | NetworkError(message: string)
}
