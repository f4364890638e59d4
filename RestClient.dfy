/** The verb methods of the abstract REST client.  Each one builds a request,
    sends it, checks the status with `EnsureSuccessStatusCode` and only then
    decodes the body; any exception on the way is logged and rethrown as it
    is.  The collaborators the client does not define are parameters:
    `append` is `QueryParameterUtil.AppendQueryParameters`, `send` is
    `HttpClient.SendAsync` (its failure covers connection errors, timeouts
    and cancellation) and `decode` is `RequestContentUtil.DeserializeAsync<T>`. */
module RestClient {
  import opened Wrappers
  import opened Http
  import VendorHeaders

  type Addons = Option<map<string, string>>

  /** The two collaborators every verb shares. */
  datatype Transport = Transport(
    append: (string, Addons) -> string,
    send: Request -> Result<Response, Error>)

  /** The contract every decoding verb keeps for the response it was sent:
      a result exists only for a 2xx response and is exactly what the decoder
      produced; an exception from sending or decoding reaches the caller
      unchanged; a non-2xx response fails with its status and its body is
      never decoded. */
  ghost predicate StatusGated<T>(sent: Result<Response, Error>, decode: Response -> Result<T, Error>, r: Result<T, Error>) {
    && (r.Success? ==> sent.Success? && IsSuccessStatus(sent.value.status) && decode(sent.value) == r)
    && (sent.Failure? ==> r == Failure(sent.error))
    && (sent.Success? && !IsSuccessStatus(sent.value.status) ==> r == Failure(HttpRequest(sent.value.status)))
    && (sent.Success? && IsSuccessStatus(sent.value.status) ==> r == decode(sent.value))
  }

  /** `response.EnsureSuccessStatusCode()` applied to the outcome of
      `SendAsync`: it passes a 2xx response through and throws otherwise. */
  function EnsureSuccess(sent: Result<Response, Error>): (r: Result<Response, Error>)
    ensures r.Success? <==> sent.Success? && IsSuccessStatus(sent.value.status)
    ensures r.Success? ==> r == sent
    ensures sent.Failure? ==> r == sent
    ensures sent.Success? && !IsSuccessStatus(sent.value.status) ==> r.error == HttpRequest(sent.value.status)
  {
    var response :- sent;
    if IsSuccessStatus(response.status) then Success(response) else Failure(HttpRequest(response.status))
  }

  /** Send, check the status, decode: the body shared by the decoding verbs. */
  function Exchange<T>(req: Request, transport: Transport, decode: Response -> Result<T, Error>): (r: Result<T, Error>)
    ensures StatusGated(transport.send(req), decode, r)
  {
    var response :- EnsureSuccess(transport.send(req));
    decode(response)
  }

  /** `GetAsync<T>`: GET the segment with the addons appended. */
  function GetAsync<T>(uriSegment: string, addons: Addons, transport: Transport, decode: Response -> Result<T, Error>): (r: Result<T, Error>)
    ensures StatusGated(transport.send(Request(Get, transport.append(uriSegment, addons), None)), decode, r)
  {
    Exchange(Request(Get, transport.append(uriSegment, addons), None), transport, decode)
  }

  /** `PostAsync<T>`: POST `content` to the segment. */
  function PostAsync<T>(uriSegment: string, content: Content, addons: Addons, transport: Transport, decode: Response -> Result<T, Error>): (r: Result<T, Error>)
    ensures StatusGated(transport.send(Request(Post, transport.append(uriSegment, addons), Some(content))), decode, r)
  {
    Exchange(Request(Post, transport.append(uriSegment, addons), Some(content)), transport, decode)
  }

  /** Non-generic `DeleteAsync`: nothing is decoded; the call succeeds exactly
      when the response is 2xx. */
  function DeleteAsync(uriSegment: string, addons: Addons, transport: Transport): (r: Result<(), Error>)
    ensures var sent := transport.send(Request(Delete, transport.append(uriSegment, addons), None));
            && (r.Success? <==> sent.Success? && IsSuccessStatus(sent.value.status))
            && (sent.Failure? ==> r == Failure(sent.error))
            && (sent.Success? && !IsSuccessStatus(sent.value.status) ==> r == Failure(HttpRequest(sent.value.status)))
  {
    var _ :- EnsureSuccess(transport.send(Request(Delete, transport.append(uriSegment, addons), None)));
    Success(())
  }

  /** `DeleteAsync<T>`: DELETE and decode the response. */
  function DeleteAsyncOf<T>(uriSegment: string, addons: Addons, transport: Transport, decode: Response -> Result<T, Error>): (r: Result<T, Error>)
    ensures StatusGated(transport.send(Request(Delete, transport.append(uriSegment, addons), None)), decode, r)
  {
    Exchange(Request(Delete, transport.append(uriSegment, addons), None), transport, decode)
  }

  /** `PatchAsync<T>`: PATCH with a string body. */
  function PatchAsync<T>(uriSegment: string, content: string, addons: Addons, transport: Transport, decode: Response -> Result<T, Error>): (r: Result<T, Error>)
    ensures StatusGated(transport.send(Request(Patch, transport.append(uriSegment, addons), Some(StringContent(content)))), decode, r)
  {
    Exchange(Request(Patch, transport.append(uriSegment, addons), Some(StringContent(content))), transport, decode)
  }

  /** `PutAsync<T>`: PUT with a string body. */
  function PutAsync<T>(uriSegment: string, content: string, addons: Addons, transport: Transport, decode: Response -> Result<T, Error>): (r: Result<T, Error>)
    ensures StatusGated(transport.send(Request(Put, transport.append(uriSegment, addons), Some(StringContent(content)))), decode, r)
  {
    Exchange(Request(Put, transport.append(uriSegment, addons), Some(StringContent(content))), transport, decode)
  }

  /** `PostFileAsync`: POST, check the status, then report the allow-listed
      vendor headers together with the raw body instead of decoding it. */
  method PostFileAsync(uriSegment: string, content: Content, keys: seq<string>, addons: Addons, transport: Transport)
    returns (r: Result<(map<string, string>, seq<byte>), Error>)
    ensures var sent := transport.send(Request(Post, transport.append(uriSegment, addons), Some(content)));
            && (r.Success? ==> sent.Success? && IsSuccessStatus(sent.value.status))
            && (sent.Failure? ==> r == Failure(sent.error))
            && (sent.Success? && !IsSuccessStatus(sent.value.status) ==> r == Failure(HttpRequest(sent.value.status)))
            && (sent.Success? && IsSuccessStatus(sent.value.status) ==>
                  var extracted := VendorHeaders.Extraction(sent.value.headers, keys, sent.value.mediaType);
                  && (r.Success? <==> extracted.Success?)
                  && (r.Success? ==> r.value == (extracted.value, sent.value.body))
                  && (r.Failure? ==> r.error == extracted.error))
    ensures r.Success? ==> forall k :: k in r.value.0 ==> k in keys
  {
    var sent := transport.send(Request(Post, transport.append(uriSegment, addons), Some(content)));
    var checked := EnsureSuccess(sent);
    if checked.Failure? {
      return Failure(checked.error);
    }
    var response := checked.value;
    var headers := VendorHeaders.ExtractVendorHeaders(response.headers, keys, response.mediaType);
    if headers.Failure? {
      return Failure(headers.error);
    }
    VendorHeaders.ExtractKeysAllowed(response.headers, keys, response.mediaType);
    r := Success((headers.value, response.body));
  }

  /** Status gate: a non-2xx response never yields a result, whatever the
      decoder would have made of its body. */
  lemma NonSuccessNeverDecoded<T>(req: Request, transport: Transport, decode: Response -> Result<T, Error>)
    requires transport.send(req).Success? && !IsSuccessStatus(transport.send(req).value.status)
    ensures Exchange(req, transport, decode) == Failure(HttpRequest(transport.send(req).value.status))
  {
  }

  /** A GET answered with HTTP 500 fails with that status, not with a
      decoded result. */
  lemma ServerErrorExample<T>(uriSegment: string, transport: Transport, decode: Response -> Result<T, Error>, body: seq<byte>)
    requires transport.send(Request(Get, transport.append(uriSegment, None), None)) == Success(Response(500, [], None, body))
    ensures GetAsync(uriSegment, None, transport, decode) == Failure(HttpRequest(500))
  {
  }
}
