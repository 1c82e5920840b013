/**
 * What one HTTP exchange with the graph server yields: the priority-ordered
 * classification of the status code, and the `{'etag', 'graph'}` result of a
 * usable 200 response (mystery_graph_bot/graph_fetcher.py). The transport
 * itself is not modelled: a call receives the outcome of `requests.get` as an
 * `Exchange` value.
 */
module GraphFetcher {
  import opened Wrappers
  import opened Serializers

  /** Request or response headers. */
  type Headers = map<string, string>

  datatype Response = Response(statusCode: int, text: string, headers: Headers)

  /**
   * The outcome of `requests.get(url, timeout=5, headers=...)`: a response,
   * or one of the three exceptions the bot catches.
   */
  datatype Exchange = Received(response: Response) | ConnectionError | Timeout | TooManyRedirects

  /** The branches of `handle_http_graph_response`, in the order they are tried. */
  datatype StatusClass = Success | ServerError | NotFound | ClientError | NotModified | Unexpected

  /**
   * The case split of `handle_http_graph_response`. Python's `//` floors;
   * Dafny's `/` is Euclidean, which agrees with flooring for the divisor 100.
   */
  function Classify(statusCode: int): (c: StatusClass)
    ensures c == Success <==> statusCode == 200
    ensures c == ServerError <==> 500 <= statusCode < 600
    ensures c == NotFound <==> statusCode == 404
    ensures c == ClientError <==> 400 <= statusCode < 500 && statusCode != 404
    ensures c == NotModified <==> statusCode == 304
    ensures c == Unexpected <==> statusCode != 200 && statusCode != 304 && !(400 <= statusCode < 600)
  {
    if statusCode == 200 then Success
    else if statusCode / 100 == 5 then ServerError
    else if statusCode == 404 then NotFound
    else if statusCode / 100 == 4 then ClientError
    else if statusCode == 304 then NotModified
    else Unexpected
  }

  /** The status codes the test suites try, and the branch each one takes. */
  lemma ClassifyExamples()
    ensures Classify(200) == Success && Classify(500) == ServerError && Classify(404) == NotFound
    ensures Classify(304) == NotModified && Classify(400) == ClientError && Classify(320) == Unexpected
  {
  }

  /** A graph fetched together with the ETag that identifies its version. */
  datatype Fetched = Fetched(etag: string, graph: Graph)

  /**
   * `parse_graph_from_response`: the body is decoded first, then the `ETag`
   * header is read; a failure of either gives `None`.
   */
  function ParseGraphFromResponse(response: Response, decode: Decoder): (r: Option<Fetched>)
    ensures r.Some? <==> decode(response.text).Some? && "ETag" in response.headers
    ensures r.Some? ==> r.value == Fetched(response.headers["ETag"], decode(response.text).value)
  {
    match decode(response.text)
    case None => None
    case Some(graph) =>
      if "ETag" in response.headers then Some(Fetched(response.headers["ETag"], graph)) else None
  }

  /** `handle_http_graph_response`: only a 200 response can carry a new graph. */
  function HandleHttpGraphResponse(response: Response, decode: Decoder): (r: Option<Fetched>)
    ensures response.statusCode != 200 ==> r == None
    ensures response.statusCode == 200 ==> r == ParseGraphFromResponse(response, decode)
  {
    match Classify(response.statusCode)
    case Success => ParseGraphFromResponse(response, decode)
    case _ => None
  }

  /**
   * `poll_graph` with its evidently intended result: the handled response,
   * or `None` when the transport failed before any response arrived.
   */
  function PollGraph(exchange: Exchange, decode: Decoder): Option<Fetched> {
    match exchange
    case Received(response) => HandleHttpGraphResponse(response, decode)
    case _ => None
  }

  /**
   * A poll reports a graph exactly when a 200 response arrived whose body
   * decodes to that graph and whose `ETag` header is the reported tag.
   */
  lemma PollGraphReports(exchange: Exchange, decode: Decoder, f: Fetched)
    ensures PollGraph(exchange, decode) == Some(f) <==>
      && exchange.Received?
      && exchange.response.statusCode == 200
      && decode(exchange.response.text) == Some(f.graph)
      && "ETag" in exchange.response.headers
      && exchange.response.headers["ETag"] == f.etag
  {
  }
}
