/** The pre-recorded transcription entry points and the callback guard they
    run before any request is built.  A callback URL may come from the
    schema's `CallBack` property or from an explicit `callBack` argument:
    the synchronous entry points refuse any callback, the callback entry
    points demand exactly one, and an argument is folded into the schema
    before the query string is made.  A refused call posts nothing.

    `getParameters` is `QueryParameterUtil.GetParameters` and
    `createPayload` is the JSON body made from a URL source; neither is part
    of this model, so both are parameters. */
module PrerecordedClient {
  import opened Wrappers
  import opened Http
  import opened PrerecordedSchema
  import RestClient

  /** `UriSegments.LISTEN`, the pre-recorded endpoint. */
  const Listen := "listen"

  /** Where the audio comes from: a URL the service fetches, or a file given
      as a byte array or as a stream (its remaining bytes). */
  datatype UrlSource = UrlSource(url: string)
  datatype FileSource = Bytes(data: seq<byte>) | Stream(remaining: seq<byte>)

  /** One call of `PostAsync` made by an entry point. */
  datatype Posted = Posted(uriSegment: string, content: Content)

  /** What an entry point did: the `PostAsync` calls it made, in order, and
      what it returned or threw. */
  datatype Call<T> = Call(posted: seq<Posted>, outcome: Result<T, Error>)

  /** The collaborators of the entry points. */
  datatype Services = Services(
    getParameters: Schema -> string,
    createPayload: UrlSource -> string,
    transport: RestClient.Transport)

  /** The request target: the listen segment with the encoded schema. */
  function Target(svc: Services, schema: Schema): string {
    Listen + "?" + svc.getParameters(schema)
  }

  /** Guard of `TranscribeUrl` and `TranscribeFile`: a synchronous request
      must not carry a callback. */
  function VerifyNoCallBack(schema: Schema): (r: Result<Schema, Error>)
    ensures r.Success? <==> Value(schema, CallBack) == None
    ensures r.Success? ==> r.value == schema
    ensures r.Failure? ==> r.error.InvalidArgument?
  {
    if schema.callBack.Some? then
      Failure(InvalidArgument("CallBack is set: use the callback entry point for asynchronous requests"))
    else
      Success(schema)
  }

  /** Guard of `TranscribeUrlCallBack` and `TranscribeFileCallBack`: exactly
      one of the property and the argument must carry the callback, and an
      argument is folded into the schema. */
  function VerifyOneCallBack(callBack: Option<string>, schema: Schema): (r: Result<Schema, Error>)
    ensures r.Success? <==> (Value(schema, CallBack).Some? != callBack.Some?)
    ensures r.Failure? ==> r.error.InvalidArgument?
    ensures r.Success? && callBack.Some? ==> Value(r.value, CallBack) == Some(StringValue(callBack.value))
    ensures r.Success? && callBack.None? ==> r.value == schema
    ensures r.Success? ==> forall f :: f != CallBack ==> Value(r.value, f) == Value(schema, f)
  {
    match (schema.callBack, callBack)
    case (Some(_), Some(_)) =>
      Failure(InvalidArgument("CallBack is set both as a property and as an argument"))
    case (None, None) =>
      Failure(InvalidArgument("no CallBack given for an asynchronous request"))
    case (Some(_), None) =>
      Success(schema)
    case (None, Some(url)) =>
      Success(WithCallBack(schema, url))
  }

  /** Post `content` to the target of the guarded schema, or post nothing
      when the guard refused. */
  function PostGuarded<T>(guarded: Result<Schema, Error>, content: Content, svc: Services, decode: Response -> Result<T, Error>): (c: Call<T>)
    ensures guarded.Failure? ==> c.posted == [] && c.outcome == Failure(guarded.error)
    ensures guarded.Success? ==>
              && c.posted == [Posted(Target(svc, guarded.value), content)]
              && c.outcome == RestClient.PostAsync(Target(svc, guarded.value), content, None, svc.transport, decode)
  {
    match guarded
    case Failure(e) => Call([], Failure(e))
    case Success(s) =>
      var target := Target(svc, s);
      Call([Posted(target, content)], RestClient.PostAsync(target, content, None, svc.transport, decode))
  }

  /** The body posted for a file: its bytes, whichever way they were given. */
  function FileContent(source: FileSource): Content {
    match source
    case Bytes(b) => StreamContent(b)
    case Stream(b) => StreamContent(b)
  }

  /** `TranscribeUrl`: a synchronous request for a URL source. */
  function TranscribeUrl<T>(source: UrlSource, schema: Schema, svc: Services, decode: Response -> Result<T, Error>): (c: Call<T>)
    ensures schema.callBack.Some? ==> c.posted == [] && c.outcome.Failure? && c.outcome.error.InvalidArgument?
    ensures schema.callBack.None? ==>
              && c.posted == [Posted(Listen + "?" + svc.getParameters(schema), StringContent(svc.createPayload(source)))]
              && c.outcome == RestClient.PostAsync(c.posted[0].uriSegment, c.posted[0].content, None, svc.transport, decode)
  {
    PostGuarded(VerifyNoCallBack(schema), StringContent(svc.createPayload(source)), svc, decode)
  }

  /** `TranscribeUrlCallBack`: an asynchronous request for a URL source. */
  function TranscribeUrlCallBack<T>(source: UrlSource, callBack: Option<string>, schema: Schema, svc: Services, decode: Response -> Result<T, Error>): (c: Call<T>)
    ensures schema.callBack.Some? == callBack.Some? ==>
              c.posted == [] && c.outcome.Failure? && c.outcome.error.InvalidArgument?
    ensures schema.callBack.Some? && callBack.None? ==>
              c.posted == [Posted(Listen + "?" + svc.getParameters(schema), StringContent(svc.createPayload(source)))]
    ensures schema.callBack.None? && callBack.Some? ==>
              c.posted == [Posted(Listen + "?" + svc.getParameters(schema.(callBack := callBack)), StringContent(svc.createPayload(source)))]
    ensures |c.posted| == 1 ==>
              c.outcome == RestClient.PostAsync(c.posted[0].uriSegment, c.posted[0].content, None, svc.transport, decode)
  {
    PostGuarded(VerifyOneCallBack(callBack, schema), StringContent(svc.createPayload(source)), svc, decode)
  }

  /** `TranscribeFile`: a synchronous request for a byte array or a stream. */
  function TranscribeFile<T>(source: FileSource, schema: Schema, svc: Services, decode: Response -> Result<T, Error>): (c: Call<T>)
    ensures schema.callBack.Some? ==> c.posted == [] && c.outcome.Failure? && c.outcome.error.InvalidArgument?
    ensures schema.callBack.None? ==>
              && c.posted == [Posted(Listen + "?" + svc.getParameters(schema), FileContent(source))]
              && c.outcome == RestClient.PostAsync(c.posted[0].uriSegment, c.posted[0].content, None, svc.transport, decode)
  {
    PostGuarded(VerifyNoCallBack(schema), FileContent(source), svc, decode)
  }

  /** `TranscribeFileCallBack`: an asynchronous request for a byte array or
      a stream. */
  function TranscribeFileCallBack<T>(source: FileSource, callBack: Option<string>, schema: Schema, svc: Services, decode: Response -> Result<T, Error>): (c: Call<T>)
    ensures schema.callBack.Some? == callBack.Some? ==>
              c.posted == [] && c.outcome.Failure? && c.outcome.error.InvalidArgument?
    ensures schema.callBack.Some? && callBack.None? ==>
              c.posted == [Posted(Listen + "?" + svc.getParameters(schema), FileContent(source))]
    ensures schema.callBack.None? && callBack.Some? ==>
              c.posted == [Posted(Listen + "?" + svc.getParameters(schema.(callBack := callBack)), FileContent(source))]
    ensures |c.posted| == 1 ==>
              c.outcome == RestClient.PostAsync(c.posted[0].uriSegment, c.posted[0].content, None, svc.transport, decode)
  {
    PostGuarded(VerifyOneCallBack(callBack, schema), FileContent(source), svc, decode)
  }

  /** The callback argument is folded into the schema before encoding: an
      argument on a schema without the property gives the same request as
      the property itself. */
  lemma ArgumentFoldsIntoProperty<T>(source: UrlSource, url: string, schema: Schema, svc: Services, decode: Response -> Result<T, Error>)
    ensures TranscribeUrlCallBack(source, Some(url), schema.(callBack := None), svc, decode)
         == TranscribeUrlCallBack(source, None, schema.(callBack := Some(url)), svc, decode)
  {
  }

  /** The request target does not depend on how the file was given. */
  lemma FileTargetIndependentOfSource<T>(a: FileSource, b: FileSource, callBack: Option<string>, schema: Schema, svc: Services, decode: Response -> Result<T, Error>)
    ensures |TranscribeFileCallBack(a, callBack, schema, svc, decode).posted| == |TranscribeFileCallBack(b, callBack, schema, svc, decode).posted|
    ensures |TranscribeFileCallBack(a, callBack, schema, svc, decode).posted| == 1 ==>
              TranscribeFileCallBack(a, callBack, schema, svc, decode).posted[0].uriSegment
              == TranscribeFileCallBack(b, callBack, schema, svc, decode).posted[0].uriSegment
    ensures TranscribeFile(a, schema, svc, decode).posted == [] <==> TranscribeFile(b, schema, svc, decode).posted == []
    ensures TranscribeFile(a, schema, svc, decode).posted != [] ==>
              TranscribeFile(a, schema, svc, decode).posted[0].uriSegment
              == TranscribeFile(b, schema, svc, decode).posted[0].uriSegment
  {
  }

  /** The documented limit of 2048 characters per `extra` key-value pair. */
  predicate ExtraWithinDocumentedLimit(schema: Schema) {
    schema.extra.None?
    || forall k :: k in schema.extra.value ==> |k| + |schema.extra.value[k]| <= 2048
  }

  /** Nothing enforces that limit: for every schema, whatever `extra` holds
      changes neither guard's verdict, and an accepted schema keeps it. */
  lemma ExtraNeverChecked(s: Schema, e: Option<map<string, string>>, callBack: Option<string>)
    ensures VerifyNoCallBack(s.(extra := e)).Success? == VerifyNoCallBack(s).Success?
    ensures VerifyNoCallBack(s.(extra := e)).Success? ==> VerifyNoCallBack(s.(extra := e)).value.extra == e
    ensures VerifyOneCallBack(callBack, s.(extra := e)).Success? == VerifyOneCallBack(callBack, s).Success?
    ensures VerifyOneCallBack(callBack, s.(extra := e)).Success? ==>
              VerifyOneCallBack(callBack, s.(extra := e)).value == VerifyOneCallBack(callBack, s).value.(extra := e)
  {
  }

  /** An illustration: a 2049-character pair is accepted. */
  lemma ExtraLimitNotEnforced(url: string)
    ensures var s := Default().(extra := Some(map["k" := seq(2048, _ => 'a')]));
            !ExtraWithinDocumentedLimit(s) && VerifyOneCallBack(Some(url), s).Success?
  {
    var s := Default().(extra := Some(map["k" := seq(2048, _ => 'a')]));
    assert |"k"| + |s.extra.value["k"]| == 2049;
  }
}
