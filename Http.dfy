/** The HTTP vocabulary the REST client works with: requests, responses,
    header lists, status classes and the exceptions that can escape a call. */
module Http {
  import opened Wrappers

  newtype byte = b: int | 0 <= b < 256

  /** The HTTP methods the client issues. */
  datatype Method = Get | Post | Delete | Patch | Put

  /** A request body: `StringContent` (JSON text) or raw bytes (`StreamContent`). */
  datatype Content = StringContent(text: string) | StreamContent(bytes: seq<byte>)

  /** What is handed to `HttpClient.SendAsync`. */
  datatype Request = Request(verb: Method, uri: string, content: Option<Content>)

  /** One entry of `response.Headers`: a field name with its values. */
  datatype Header = Header(name: string, values: seq<string>)

  /** A completed HTTP exchange, as plain data.  `mediaType` is
      `response.Content.Headers.ContentType?.MediaType`, which is kept apart
      from the enumerable header list. */
  datatype Response = Response(
    status: int,
    headers: seq<Header>,
    mediaType: Option<string>,
    body: seq<byte>)

  /** The exceptions a call can raise.  The model raises `HttpRequest`
      (from `EnsureSuccessStatusCode`), `MissingHeader` (from
      `HttpHeaders.GetValues`), `DuplicateKey` (from `Dictionary.Add`) and
      `InvalidArgument` (from the callback guard) itself; `Transport` and
      `Deserialize` come from collaborators and are only passed along. */
  datatype Error =
    | HttpRequest(status: int)
    | Transport(reason: string)
    | Deserialize(reason: string)
    | MissingHeader(name: string)
    | DuplicateKey(key: string)
    | InvalidArgument(message: string)

  /** `IsSuccessStatusCode`: the successful class 2xx (section 15.3 of RFC 9110). */
  predicate IsSuccessStatus(status: int) {
    200 <= status <= 299
  }

  /** ASCII lower-casing of one character. */
  function LowerChar(c: char): (d: char)
    ensures 'A' <= c <= 'Z' ==> d as int == c as int + 32
    ensures !('A' <= c <= 'Z') ==> d == c
    ensures !('A' <= d <= 'Z')
  {
    if 'A' <= c <= 'Z' then (c as int + 32) as char else c
  }

  /** `string.ToLower()` on the ASCII letters that HTTP field names are made of
      (field names are case-insensitive, section 5.1 of RFC 9110). */
  function ToLower(s: string): (t: string)
    ensures |t| == |s|
    ensures forall i :: 0 <= i < |s| ==> t[i] == LowerChar(s[i])
  {
    seq(|s|, i requires 0 <= i < |s| => LowerChar(s[i]))
  }

  /** Two characters that are the same letter up to ASCII case. */
  predicate SameIgnoringCase(c: char, d: char) {
    c == d
    || ('A' <= c <= 'Z' && d as int == c as int + 32)
    || ('A' <= d <= 'Z' && c as int == d as int + 32)
  }

  /** Two names that differ at most in the ASCII case of their letters. */
  predicate CaseVariants(a: string, b: string) {
    |a| == |b| && forall i :: 0 <= i < |a| ==> SameIgnoringCase(a[i], b[i])
  }

  /** Invariant lower-casing maps every case variant of a name to one name. */
  lemma ToLowerIgnoresCase(a: string, b: string)
    requires CaseVariants(a, b)
    ensures ToLower(a) == ToLower(b)
  {
  }

  /** `string.ToLower()` as the source calls it, under a Turkish or Azerbaijani
      current culture: capital `I` becomes dotless `ı`, the other ASCII
      capitals become their small letters. */
  function LowerCharTurkic(c: char): (d: char)
    ensures c == 'I' ==> d == '\U{131}'
    ensures c != 'I' ==> d == LowerChar(c)
  {
    if c == 'I' then '\U{131}' else LowerChar(c)
  }

  function ToLowerTurkic(s: string): (t: string)
    ensures |t| == |s|
    ensures forall i :: 0 <= i < |s| ==> t[i] == LowerCharTurkic(s[i])
  {
    seq(|s|, i requires 0 <= i < |s| => LowerCharTurkic(s[i]))
  }

  /** Culture-sensitive lower-casing does not map case variants to one name:
      `I` and `i` stay apart. */
  lemma TurkicLowerSplitsCaseVariants()
    ensures CaseVariants("I", "i")
    ensures ToLowerTurkic("I") != ToLowerTurkic("i")
  {
    assert ToLowerTurkic("I")[0] == '\U{131}' != 'i' == ToLowerTurkic("i")[0];
  }

  /** `s.IndexOf(prefix) == 0`, i.e. `s` starts with `prefix`. */
  predicate StartsWith(s: string, prefix: string) {
    |prefix| <= |s| && s[..|prefix|] == prefix
  }
}
