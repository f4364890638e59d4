/** The configuration record of a pre-recorded transcription request.
    Every option is nullable and starts out null, so "unset" is kept apart
    from `false`, `0` or an empty list; each option is sent under a fixed
    wire token that does not follow the casing of its identifier. */
module PrerecordedSchema {
  import opened Wrappers

  /** A C# `double`, kept opaque as its IEEE-754 bit pattern: nothing in the
      model computes with it. */
  datatype Float64 = Float64(bits: bv64)

  /** `PrerecordedSchema`: one optional field per property, in declaration order. */
  datatype Schema = Schema(
    alternatives: Option<int>,
    callBack: Option<string>,
    callbackMethod: Option<bool>,
    customIntent: Option<seq<string>>,
    customIntentMode: Option<string>,
    customTopic: Option<seq<string>>,
    customTopicMode: Option<string>,
    detectEntities: Option<bool>,
    detectLanguage: Option<bool>,
    detectTopics: Option<bool>,
    diarize: Option<bool>,
    diarizeVersion: Option<string>,
    dictation: Option<bool>,
    extra: Option<map<string, string>>,
    fillerWords: Option<bool>,
    intents: Option<bool>,
    keywords: Option<seq<string>>,
    language: Option<string>,
    measurements: Option<bool>,
    model: Option<string>,
    multiChannel: Option<bool>,
    paragraphs: Option<bool>,
    profanityFilter: Option<bool>,
    punctuate: Option<bool>,
    redact: Option<seq<string>>,
    replace: Option<seq<string>>,
    search: Option<seq<string>>,
    sentiment: Option<bool>,
    smartFormat: Option<bool>,
    summarize: Option<string>,
    tag: Option<seq<string>>,
    topics: Option<bool>,
    uttSplit: Option<Float64>,
    utterances: Option<bool>,
    version: Option<string>)

  /** The properties of the record, as names. */
  datatype Field =
    | Alternatives
    | CallBack
    | CallbackMethod
    | CustomIntent
    | CustomIntentMode
    | CustomTopic
    | CustomTopicMode
    | DetectEntities
    | DetectLanguage
    | DetectTopics
    | Diarize
    | DiarizeVersion
    | Dictation
    | Extra
    | FillerWords
    | Intents
    | Keywords
    | Language
    | Measurements
    | Model
    | MultiChannel
    | Paragraphs
    | ProfanityFilter
    | Punctuate
    | Redact
    | Replace
    | Search
    | Sentiment
    | SmartFormat
    | Summarize
    | Tag
    | Topics
    | UttSplit
    | Utterances
    | Version

  /** The value of a set property, whatever its type. */
  datatype OptionValue =
    | IntValue(i: int)
    | StringValue(s: string)
    | BoolValue(b: bool)
    | ListValue(items: seq<string>)
    | MapValue(pairs: map<string, string>)
    | DoubleValue(d: Float64)

  /** The `JsonPropertyName` of each property. */
  function WireToken(f: Field): string {
    match f
    case Alternatives => "alternatives"
    case CallBack => "callback"
    case CallbackMethod => "callback_method"
    case CustomIntent => "custom_intent"
    case CustomIntentMode => "custom_intent_mode"
    case CustomTopic => "custom_topic"
    case CustomTopicMode => "custom_topic_mode"
    case DetectEntities => "detect_entities"
    case DetectLanguage => "detect_language"
    case DetectTopics => "detect_topics"
    case Diarize => "diarize"
    case DiarizeVersion => "diarize_version"
    case Dictation => "dictation"
    case Extra => "extra"
    case FillerWords => "filler_words"
    case Intents => "intents"
    case Keywords => "keywords"
    case Language => "language"
    case Measurements => "measurements"
    case Model => "model"
    case MultiChannel => "multichannel"
    case Paragraphs => "paragraphs"
    case ProfanityFilter => "profanity_filter"
    case Punctuate => "punctuate"
    case Redact => "redact"
    case Replace => "replace"
    case Search => "search"
    case Sentiment => "sentiment"
    case SmartFormat => "smart_format"
    case Summarize => "summarize"
    case Tag => "tag"
    case Topics => "topics"
    case UttSplit => "utt_split"
    case Utterances => "utterances"
    case Version => "version"
  }

  /** The property a wire token names, if any. */
  function FieldOfToken(token: string): Option<Field> {
    match token
    case "alternatives" => Some(Alternatives)
    case "callback" => Some(CallBack)
    case "callback_method" => Some(CallbackMethod)
    case "custom_intent" => Some(CustomIntent)
    case "custom_intent_mode" => Some(CustomIntentMode)
    case "custom_topic" => Some(CustomTopic)
    case "custom_topic_mode" => Some(CustomTopicMode)
    case "detect_entities" => Some(DetectEntities)
    case "detect_language" => Some(DetectLanguage)
    case "detect_topics" => Some(DetectTopics)
    case "diarize" => Some(Diarize)
    case "diarize_version" => Some(DiarizeVersion)
    case "dictation" => Some(Dictation)
    case "extra" => Some(Extra)
    case "filler_words" => Some(FillerWords)
    case "intents" => Some(Intents)
    case "keywords" => Some(Keywords)
    case "language" => Some(Language)
    case "measurements" => Some(Measurements)
    case "model" => Some(Model)
    case "multichannel" => Some(MultiChannel)
    case "paragraphs" => Some(Paragraphs)
    case "profanity_filter" => Some(ProfanityFilter)
    case "punctuate" => Some(Punctuate)
    case "redact" => Some(Redact)
    case "replace" => Some(Replace)
    case "search" => Some(Search)
    case "sentiment" => Some(Sentiment)
    case "smart_format" => Some(SmartFormat)
    case "summarize" => Some(Summarize)
    case "tag" => Some(Tag)
    case "topics" => Some(Topics)
    case "utt_split" => Some(UttSplit)
    case "utterances" => Some(Utterances)
    case "version" => Some(Version)
    case _ => None
  }

  /** Every token names its property back, so the tokens are pairwise distinct. */
  lemma TokenRoundTrip(f: Field)
    ensures FieldOfToken(WireToken(f)) == Some(f)
  {
    match f
    case Alternatives => assert FieldOfToken("alternatives") == Some(Alternatives);
    case CallBack => assert FieldOfToken("callback") == Some(CallBack);
    case CallbackMethod => assert FieldOfToken("callback_method") == Some(CallbackMethod);
    case CustomIntent => assert FieldOfToken("custom_intent") == Some(CustomIntent);
    case CustomIntentMode => assert FieldOfToken("custom_intent_mode") == Some(CustomIntentMode);
    case CustomTopic => assert FieldOfToken("custom_topic") == Some(CustomTopic);
    case CustomTopicMode => assert FieldOfToken("custom_topic_mode") == Some(CustomTopicMode);
    case DetectEntities => assert FieldOfToken("detect_entities") == Some(DetectEntities);
    case DetectLanguage => assert FieldOfToken("detect_language") == Some(DetectLanguage);
    case DetectTopics => assert FieldOfToken("detect_topics") == Some(DetectTopics);
    case Diarize => assert FieldOfToken("diarize") == Some(Diarize);
    case DiarizeVersion => assert FieldOfToken("diarize_version") == Some(DiarizeVersion);
    case Dictation => assert FieldOfToken("dictation") == Some(Dictation);
    case Extra => assert FieldOfToken("extra") == Some(Extra);
    case FillerWords => assert FieldOfToken("filler_words") == Some(FillerWords);
    case Intents => assert FieldOfToken("intents") == Some(Intents);
    case Keywords => assert FieldOfToken("keywords") == Some(Keywords);
    case Language => assert FieldOfToken("language") == Some(Language);
    case Measurements => assert FieldOfToken("measurements") == Some(Measurements);
    case Model => assert FieldOfToken("model") == Some(Model);
    case MultiChannel => assert FieldOfToken("multichannel") == Some(MultiChannel);
    case Paragraphs => assert FieldOfToken("paragraphs") == Some(Paragraphs);
    case ProfanityFilter => assert FieldOfToken("profanity_filter") == Some(ProfanityFilter);
    case Punctuate => assert FieldOfToken("punctuate") == Some(Punctuate);
    case Redact => assert FieldOfToken("redact") == Some(Redact);
    case Replace => assert FieldOfToken("replace") == Some(Replace);
    case Search => assert FieldOfToken("search") == Some(Search);
    case Sentiment => assert FieldOfToken("sentiment") == Some(Sentiment);
    case SmartFormat => assert FieldOfToken("smart_format") == Some(SmartFormat);
    case Summarize => assert FieldOfToken("summarize") == Some(Summarize);
    case Tag => assert FieldOfToken("tag") == Some(Tag);
    case Topics => assert FieldOfToken("topics") == Some(Topics);
    case UttSplit => assert FieldOfToken("utt_split") == Some(UttSplit);
    case Utterances => assert FieldOfToken("utterances") == Some(Utterances);
    case Version => assert FieldOfToken("version") == Some(Version);
  }

  /** All wire tokens in the record are pairwise distinct. */
  lemma WireTokensDistinct(f: Field, g: Field)
    requires WireToken(f) == WireToken(g)
    ensures f == g
  {
    TokenRoundTrip(f);
    TokenRoundTrip(g);
  }

  /** Tokens are independent of identifier casing. */
  lemma WireTokensIgnoreIdentifierCasing()
    ensures WireToken(CallBack) == "callback"
    ensures WireToken(MultiChannel) == "multichannel"
    ensures WireToken(SmartFormat) == "smart_format"
    ensures WireToken(UttSplit) == "utt_split"
  {
  }

  /** The value of property `f` in `s`, `None` when it is null. */
  function Value(s: Schema, f: Field): Option<OptionValue> {
    match f
    case Alternatives => if s.alternatives.Some? then Some(IntValue(s.alternatives.value)) else None
    case CallBack => if s.callBack.Some? then Some(StringValue(s.callBack.value)) else None
    case CallbackMethod => if s.callbackMethod.Some? then Some(BoolValue(s.callbackMethod.value)) else None
    case CustomIntent => if s.customIntent.Some? then Some(ListValue(s.customIntent.value)) else None
    case CustomIntentMode => if s.customIntentMode.Some? then Some(StringValue(s.customIntentMode.value)) else None
    case CustomTopic => if s.customTopic.Some? then Some(ListValue(s.customTopic.value)) else None
    case CustomTopicMode => if s.customTopicMode.Some? then Some(StringValue(s.customTopicMode.value)) else None
    case DetectEntities => if s.detectEntities.Some? then Some(BoolValue(s.detectEntities.value)) else None
    case DetectLanguage => if s.detectLanguage.Some? then Some(BoolValue(s.detectLanguage.value)) else None
    case DetectTopics => if s.detectTopics.Some? then Some(BoolValue(s.detectTopics.value)) else None
    case Diarize => if s.diarize.Some? then Some(BoolValue(s.diarize.value)) else None
    case DiarizeVersion => if s.diarizeVersion.Some? then Some(StringValue(s.diarizeVersion.value)) else None
    case Dictation => if s.dictation.Some? then Some(BoolValue(s.dictation.value)) else None
    case Extra => if s.extra.Some? then Some(MapValue(s.extra.value)) else None
    case FillerWords => if s.fillerWords.Some? then Some(BoolValue(s.fillerWords.value)) else None
    case Intents => if s.intents.Some? then Some(BoolValue(s.intents.value)) else None
    case Keywords => if s.keywords.Some? then Some(ListValue(s.keywords.value)) else None
    case Language => if s.language.Some? then Some(StringValue(s.language.value)) else None
    case Measurements => if s.measurements.Some? then Some(BoolValue(s.measurements.value)) else None
    case Model => if s.model.Some? then Some(StringValue(s.model.value)) else None
    case MultiChannel => if s.multiChannel.Some? then Some(BoolValue(s.multiChannel.value)) else None
    case Paragraphs => if s.paragraphs.Some? then Some(BoolValue(s.paragraphs.value)) else None
    case ProfanityFilter => if s.profanityFilter.Some? then Some(BoolValue(s.profanityFilter.value)) else None
    case Punctuate => if s.punctuate.Some? then Some(BoolValue(s.punctuate.value)) else None
    case Redact => if s.redact.Some? then Some(ListValue(s.redact.value)) else None
    case Replace => if s.replace.Some? then Some(ListValue(s.replace.value)) else None
    case Search => if s.search.Some? then Some(ListValue(s.search.value)) else None
    case Sentiment => if s.sentiment.Some? then Some(BoolValue(s.sentiment.value)) else None
    case SmartFormat => if s.smartFormat.Some? then Some(BoolValue(s.smartFormat.value)) else None
    case Summarize => if s.summarize.Some? then Some(StringValue(s.summarize.value)) else None
    case Tag => if s.tag.Some? then Some(ListValue(s.tag.value)) else None
    case Topics => if s.topics.Some? then Some(BoolValue(s.topics.value)) else None
    case UttSplit => if s.uttSplit.Some? then Some(DoubleValue(s.uttSplit.value)) else None
    case Utterances => if s.utterances.Some? then Some(BoolValue(s.utterances.value)) else None
    case Version => if s.version.Some? then Some(StringValue(s.version.value)) else None
  }

  /** `new PrerecordedSchema()`: every property starts out null. */
  function Default(): (s: Schema)
    ensures forall f :: Value(s, f) == None
  {
    Schema(None, None, None, None, None, None, None, None, None, None, None, None, None, None, None, None, None, None, None, None, None, None, None, None, None, None, None, None, None, None, None, None, None, None, None)
  }

  /** Unset is not the zero value: a property set to `false`, `0` or an empty
      list is set. */
  lemma ExplicitZeroIsSet(s: Schema)
    ensures Value(s.(punctuate := Some(false)), Punctuate) == Some(BoolValue(false)) != None
    ensures Value(s.(alternatives := Some(0)), Alternatives) == Some(IntValue(0)) != None
    ensures Value(s.(redact := Some([])), Redact) == Some(ListValue([])) != None
  {
  }

  /** The schema with `CallBack` set to `url`; every other property is kept. */
  function WithCallBack(s: Schema, url: string): (r: Schema)
    ensures Value(r, CallBack) == Some(StringValue(url))
    ensures forall f :: f != CallBack ==> Value(r, f) == Value(s, f)
  {
    s.(callBack := Some(url))
  }
}
