/**
 * The deterministic core of the Elasticsearch sink (`src/sinks/elasticsearch.rs`):
 * resolving the configuration, encoding each event as a bulk-index action
 * and its document, building the plain or signed bulk request, and the
 * healthcheck's request and verdict.
 */
module Elasticsearch {

  import opened Wrappers
  import opened Bytes
  import Json
  import Base64
  import FormUrlencoded
  import opened Http
  import opened Event

  // ---------------------------------------------------------------------
  // Configuration (`ElasticSearchConfig`)
  // ---------------------------------------------------------------------

  /** `usize` of a 64-bit target. */
  newtype usize = x: int | 0 <= x < 0x1_0000_0000_0000_0000

  newtype u64 = x: int | 0 <= x < 0x1_0000_0000_0000_0000

  const USIZE_MAX: usize := 0xFFFF_FFFF_FFFF_FFFF

  /** `Compression::None` and `Compression::Gzip`. */
  datatype Compression = Uncompressed | Gzip

  datatype Provider = Default | Aws

  datatype BasicAuthConfig = BasicAuthConfig(password: Bytes, user: Bytes)

  /** `RegionOrEndpoint`, converted into a `Region` by code outside this model. */
  datatype RegionOrEndpoint = RegionOrEndpoint(region: Option<Bytes>, endpoint: Option<Bytes>)

  datatype Region = Region(name: Bytes, endpoint: Option<Bytes>)

  type RegionConversion = RegionOrEndpoint -> Result<Region, Bytes>

  /** The credential the AWS provider chain hands out; opaque here. */
  datatype AwsCredentials = AwsCredentials(key: Bytes, secret: Bytes, token: Option<Bytes>)

  /**
   * How obtaining AWS credentials at start-up ends: creating the default
   * provider fails, or asking it for credentials fails, or it yields them.
   */
  datatype CredentialsFetch =
    | ProviderUnavailable(error: Bytes)
    | CredentialsUnavailable(error: Bytes)
    | Fetched(credentials: AwsCredentials)

  /** A `HashMap<String, String>`, as the sequence its iteration yields. */
  type StringMap = seq<(Bytes, Bytes)>

  datatype Config = Config(
    host: Bytes,
    index: Option<Bytes>,
    docType: Option<Bytes>,
    idKey: Option<Bytes>,
    batchSize: Option<usize>,
    batchTimeout: Option<u64>,
    compression: Option<Compression>,
    provider: Option<Provider>,
    region: Option<RegionOrEndpoint>,
    requestInFlightLimit: Option<usize>,
    requestTimeoutSecs: Option<u64>,
    requestRateLimitDurationSecs: Option<u64>,
    requestRateLimitNum: Option<u64>,
    requestRetryAttempts: Option<usize>,
    requestRetryBackoffSecs: Option<u64>,
    basicAuth: Option<BasicAuthConfig>,
    headers: Option<StringMap>,
    query: Option<StringMap>)

  /** A compiled index template; rendering it belongs to `crate::template`. */
  datatype Template = Template(source: Bytes)

  /** `Template::render_string`: the rendered text, or the keys missing from the event. */
  type Renderer = (Template, LogEvent) -> Result<Bytes, seq<Bytes>>

  /** `LogEvent::unflatten` followed by conversion to a JSON value. */
  type Unflattener = LogEvent -> Json.Json

  const DEFAULT_BATCH_SIZE: usize := 10 * 1024 * 1024
  const DEFAULT_BATCH_TIMEOUT_SECS: u64 := 1
  const DEFAULT_REQUEST_TIMEOUT_SECS: u64 := 60
  const DEFAULT_IN_FLIGHT_LIMIT: usize := 5
  const DEFAULT_RATE_LIMIT_DURATION_SECS: u64 := 1
  const DEFAULT_RATE_LIMIT_NUM: u64 := 5
  const DEFAULT_RETRY_ATTEMPTS: usize := USIZE_MAX
  const DEFAULT_RETRY_BACKOFF_SECS: u64 := 1

  function DefaultIndex(): Bytes { Ascii("vector-%Y.%m.%d") }
  function DefaultDocType(): Bytes { Ascii("_doc") }

  function InvalidHost(): Bytes { Ascii("Invalid elasticsearch host") }
  function RegionRequired(): Bytes { Ascii("AWS provider requires a configured region") }
  function ProviderError(e: Bytes): Bytes { Ascii("Could not create AWS credentials provider: ") + e }
  function CredentialsError(e: Bytes): Bytes { Ascii("Could not generate AWS credentials: ") + e }

  /** Everything `es` resolves before it assembles the service. */
  datatype Settings = Settings(
    idKey: Option<Bytes>,
    gzip: bool,
    batchSize: usize,
    batchTimeoutSecs: u64,
    timeoutSecs: u64,
    inFlightLimit: usize,
    rateLimitDurationSecs: u64,
    rateLimitNum: u64,
    retryAttempts: usize,
    retryBackoffSecs: u64,
    index: Template,
    docType: Bytes,
    authorization: Option<Bytes>,
    headers: StringMap,
    uri: Uri,
    region: Option<Region>,
    credentials: Option<AwsCredentials>)

  /** Signed mode always has a region and never compresses. */
  predicate SignedModeConsistent(s: Settings) {
    s.credentials.Some? ==> s.region.Some? && !s.gzip
  }

  predicate IsAws(config: Config) {
    config.provider == Some(Aws)
  }

  /** The region conversion's error, when a region is configured and does not convert. */
  function RegionError(config: Config, toRegion: RegionConversion): Option<Bytes> {
    if config.region.Some? && toRegion(config.region.value).Failure? then
      Some(toRegion(config.region.value).error)
    else None
  }

  // ---------------------------------------------------------------------
  // Basic authentication (section 2 of RFC 7617)
  // ---------------------------------------------------------------------

  const COLON: byte := 58

  function BasicPrefix(): Bytes { Ascii("Basic ") }

  /** `format!("Basic {}", base64::encode(format!("{}:{}", user, password)))`. */
  function BasicAuthorization(auth: BasicAuthConfig): Bytes {
    BasicPrefix() + Base64.Encode(auth.user + [COLON] + auth.password)
  }

  /**
   * The header carries the credentials recoverably: after `Basic ` comes
   * the Base 64 form of `user:password`, and when the user id has no colon
   * (which RFC 7617 forbids) splitting at the first colon gives both back.
   */
  lemma BasicAuthorizationDecodes(auth: BasicAuthConfig)
    ensures BasicAuthorization(auth)[..6] == BasicPrefix()
    ensures Base64.Decode(BasicAuthorization(auth)[6..]) == Some(auth.user + [COLON] + auth.password)
    ensures COLON !in auth.user ==>
      var token := auth.user + [COLON] + auth.password;
      var i := FormUrlencoded.IndexOf(token, COLON);
      token[..i] == auth.user && token[i + 1..] == auth.password
  {
    var enc := Base64.Encode(auth.user + [COLON] + auth.password);
    assert BasicAuthorization(auth)[6..] == enc;
    Base64.DecodeEncode(auth.user + [COLON] + auth.password);
    if COLON !in auth.user {
      FormUrlencoded.IndexOfAfter(auth.user, COLON, auth.password);
    }
  }

  // ---------------------------------------------------------------------
  // The bulk request path (`/_bulk[?query]`)
  // ---------------------------------------------------------------------

  function BulkPath(): Bytes { Ascii("/_bulk") }

  lemma BulkPathHasNoQuestion()
    ensures FormUrlencoded.QUESTION !in BulkPath() && |BulkPath()| == 6
  {
    var b := BulkPath();
    forall i | 0 <= i < |b| ensures b[i] != FormUrlencoded.QUESTION {
      assert b[i] as int == "/_bulk"[i] as int % 256;
    }
  }

  /**
   * The path and query the bulk request is meant to have: `/_bulk`, then,
   * when the configured query has pairs, `?` and the pairs form-urlencoded.
   */
  function BulkPathQuery(query: Option<StringMap>): Bytes {
    if query.Some? && query.value != [] then
      BulkPath() + [FormUrlencoded.QUESTION] + FormUrlencoded.Serialized(query.value)
    else BulkPath()
  }

  /**
   * The query pairs a server finds in the bulk request: the path ends at the
   * first `?`, and what follows is parsed as form-urlencoded pairs.
   */
  function ServerView(pathQuery: Bytes): (Bytes, StringMap) {
    var i := FormUrlencoded.IndexOf(pathQuery, FormUrlencoded.QUESTION);
    (pathQuery[..i], if i < |pathQuery| then FormUrlencoded.Parse(pathQuery[i + 1..]) else [])
  }

  lemma {:induction false} BulkPathQueryReadsBack(query: Option<StringMap>)
    ensures ServerView(BulkPathQuery(query)) == (BulkPath(), if query.Some? then query.value else [])
  {
    BulkPathHasNoQuestion();
    var pq := BulkPathQuery(query);
    if query.Some? && query.value != [] {
      FormUrlencoded.IndexOfAfter(BulkPath(), FormUrlencoded.QUESTION, FormUrlencoded.Serialized(query.value));
      assert pq[..6] == BulkPath();
      assert pq[7..] == FormUrlencoded.Serialized(query.value);
      FormUrlencoded.ParseSerialized(query.value);
    } else {
      FormUrlencoded.IndexOfAbsent(BulkPath(), FormUrlencoded.QUESTION);
      assert pq[..6] == pq;
    }
  }

  /**
   * The path and query as the source builds them: the serializer is created
   * with `Serializer::new("/_bulk")`, whose start position is 0, so a `&`
   * precedes every pair, the first one included, and no `?` is written.
   */
  function BulkPathQueryAsWritten(query: Option<StringMap>): Bytes {
    if query.Some? && query.value != [] then
      BulkPath() + [FormUrlencoded.AMP] + FormUrlencoded.Serialized(query.value)
    else BulkPath()
  }

  /**
   * The corrected path and query and the one the source builds agree
   * exactly when no query pair is configured: with any pair, the byte after
   * `/_bulk` is `?` in one and `&` in the other.
   */
  lemma BulkPathQueryMatchesAsWritten(query: Option<StringMap>)
    ensures BulkPathQuery(query) == BulkPathQueryAsWritten(query) <==> query.None? || query.value == []
  {
    if query.Some? && query.value != [] {
      BulkPathHasNoQuestion();
      assert BulkPathQuery(query)[6] == FormUrlencoded.QUESTION;
      assert BulkPathQueryAsWritten(query)[6] == FormUrlencoded.AMP;
    }
  }

  /** What appending the pairs adds to a target, `&` first when it already extends past its start. */
  function Appended(separate: bool, pairs: StringMap): Bytes {
    if pairs == [] then []
    else (if separate then [FormUrlencoded.AMP] else []) + FormUrlencoded.Serialized(pairs)
  }

  /** The target after one `append_pair`. */
  function Step(target: Bytes, start: nat, p: (Bytes, Bytes)): Bytes {
    target + (if |target| > start then [FormUrlencoded.AMP] else []) + FormUrlencoded.PairText(p)
  }

  /** The target after `append_pair` for each of `ps`, in order. */
  function AppendAll(target: Bytes, start: nat, ps: StringMap): Bytes {
    if ps == [] then target else Step(AppendAll(target, start, ps[..|ps| - 1]), start, ps[|ps| - 1])
  }

  /** Repeated `append_pair` adds the serialized pairs, led by `&` when the target already had content. */
  lemma {:induction false} AppendAllIsAppended(initial: Bytes, start: nat, ps: StringMap)
    requires start <= |initial|
    ensures AppendAll(initial, start, ps) == initial + Appended(|initial| > start, ps)
    decreases |ps|
  {
    if ps != [] {
      var init := ps[..|ps| - 1];
      var p := ps[|ps| - 1];
      var separate := |initial| > start;
      var text := FormUrlencoded.PairText(p);
      var lead := if separate then [FormUrlencoded.AMP] else [];
      AppendAllIsAppended(initial, start, init);
      var x := AppendAll(initial, start, init);
      assert AppendAll(initial, start, ps) == Step(x, start, p);
      assert ps == init + [p];
      if init == [] {
        assert x == initial;
        assert Step(x, start, p) == initial + lead + text;
        assert Appended(separate, [p]) == lead + text;
        assert initial + lead + text == initial + (lead + text);
      } else {
        var sofar := FormUrlencoded.Serialized(init);
        FormUrlencoded.SerializedSnoc(init, p);
        assert x == initial + (lead + sofar);
        assert |x| > start;
        assert Step(x, start, p) == x + [FormUrlencoded.AMP] + text;
        assert Appended(separate, ps) == lead + (sofar + [FormUrlencoded.AMP] + text);
        Regroup(initial, lead, sofar, [FormUrlencoded.AMP], text);
      }
    }
  }

  lemma Regroup(a: Bytes, b: Bytes, c: Bytes, d: Bytes, e: Bytes)
    ensures (a + (b + c)) + d + e == a + (b + (c + d + e))
  {
  }

  /** The `for (p, v) in query { path_query.append_pair(p, v) }` loop. */
  method AppendPairs(serializer: FormUrlencoded.Serializer, pairs: StringMap)
    requires serializer.Valid()
    modifies serializer
    ensures serializer.Valid()
    ensures serializer.target == old(serializer.target) + Appended(|old(serializer.target)| > serializer.start, pairs)
  {
    ghost var initial := serializer.target;
    for i := 0 to |pairs|
      invariant serializer.Valid()
      invariant serializer.target == AppendAll(initial, serializer.start, pairs[..i])
    {
      assert pairs[..i + 1][..i] == pairs[..i];
      serializer.AppendPair(pairs[i].0, pairs[i].1);
    }
    assert pairs[..|pairs|] == pairs;
    AppendAllIsAppended(initial, serializer.start, pairs);
  }

  /** Lines 122-127 as written: the serializer starts out as `Serializer::new("/_bulk")`. */
  method AppendQueryAsWritten(query: Option<StringMap>) returns (pathQuery: Bytes)
    ensures pathQuery == BulkPathQueryAsWritten(query)
  {
    var serializer := new FormUrlencoded.Serializer.New(BulkPath());
    if query.Some? {
      AppendPairs(serializer, query.value);
    }
    pathQuery := serializer.target;
  }

  /** As written, a configured query never reaches the server as a query. */
  lemma QueryAsWrittenIsLost(query: StringMap)
    requires query != []
    ensures ServerView(BulkPathQueryAsWritten(Some(query))).1 == []
    ensures ServerView(BulkPathQueryAsWritten(Some(query))).0 != BulkPath()
  {
    var pq := BulkPathQueryAsWritten(Some(query));
    BulkPathHasNoQuestion();
    FormUrlencoded.SerializedHasNoQuestion(query);
    assert FormUrlencoded.QUESTION !in pq;
    FormUrlencoded.IndexOfAbsent(pq, FormUrlencoded.QUESTION);
    assert pq[..|pq|] == pq;
    assert |pq| > 6;
  }

  /** As written, one pair whose name and value need no escaping lands right after `/_bulk&`. */
  lemma QueryAsWrittenOnePair(name: Bytes, value: Bytes)
    requires forall i | 0 <= i < |name| :: FormUrlencoded.Unchanged(name[i])
    requires forall i | 0 <= i < |value| :: FormUrlencoded.Unchanged(value[i])
    ensures BulkPathQueryAsWritten(Some([(name, value)])) == BulkPath() + [FormUrlencoded.AMP] + name + [FormUrlencoded.EQ] + value
  {
    FormUrlencoded.EncodeUnchanged(name);
    FormUrlencoded.EncodeUnchanged(value);
  }

  /**
   * The corrected loop: the pairs are serialized on their own, with
   * `Serializer::new("")`, and joined to `/_bulk` with `?` when there are any.
   */
  method AppendQuery(query: Option<StringMap>) returns (pathQuery: Bytes)
    ensures pathQuery == BulkPathQuery(query)
  {
    var serializer := new FormUrlencoded.Serializer.New([]);
    if query.Some? {
      AppendPairs(serializer, query.value);
    }
    var q := serializer.target;
    if q == [] {
      pathQuery := BulkPath();
    } else {
      pathQuery := BulkPath() + [FormUrlencoded.QUESTION] + q;
    }
  }

  // ---------------------------------------------------------------------
  // `es`: resolving the configuration
  // ---------------------------------------------------------------------

  /** `compression.unwrap_or(Compression::Gzip)`, as the initial `gzip` flag. */
  function GzipConfigured(config: Config): bool {
    config.compression.GetOr(Gzip) == Gzip
  }

  /** The region `es` converts, when one is configured and converts. */
  function ConvertedRegion(config: Config, toRegion: RegionConversion): Option<Region> {
    if config.region.Some? && toRegion(config.region.value).Success? then Some(toRegion(config.region.value).value)
    else None
  }

  /** The settings once every step succeeded; the AWS arm turns gzip off. */
  function Settle(config: Config, uri: Uri, region: Option<Region>, credentials: Option<AwsCredentials>): Settings {
    Settings(
      config.idKey,
      GzipConfigured(config) && !IsAws(config),
      config.batchSize.GetOr(DEFAULT_BATCH_SIZE),
      config.batchTimeout.GetOr(DEFAULT_BATCH_TIMEOUT_SECS),
      config.requestTimeoutSecs.GetOr(DEFAULT_REQUEST_TIMEOUT_SECS),
      config.requestInFlightLimit.GetOr(DEFAULT_IN_FLIGHT_LIMIT),
      config.requestRateLimitDurationSecs.GetOr(DEFAULT_RATE_LIMIT_DURATION_SECS),
      config.requestRateLimitNum.GetOr(DEFAULT_RATE_LIMIT_NUM),
      config.requestRetryAttempts.GetOr(DEFAULT_RETRY_ATTEMPTS),
      config.requestRetryBackoffSecs.GetOr(DEFAULT_RETRY_BACKOFF_SECS),
      Template(config.index.GetOr(DefaultIndex())),
      config.docType.GetOr(DefaultDocType()),
      if config.basicAuth.Some? then Some(BasicAuthorization(config.basicAuth.value)) else None,
      config.headers.GetOr([]),
      uri, region, credentials)
  }

  /**
   * What `es` resolves: the first failing step in source order (the URI, the
   * region conversion, the AWS region requirement, the credential provider,
   * the credentials), or the settled configuration.
   */
  function Resolve(config: Config, parseUri: UriParser, toRegion: RegionConversion, fetch: CredentialsFetch)
    : Outcome<Settings, Bytes>
  {
    var uri := parseUri(config.host + BulkPathQuery(config.query));
    if uri.None? then Panicked(InvalidHost())
    else if RegionError(config, toRegion).Some? then Failed(RegionError(config, toRegion).value)
    else if !IsAws(config) then Built(Settle(config, uri.value, ConvertedRegion(config, toRegion), None))
    else if config.region.None? then Failed(RegionRequired())
    else
      match fetch
      case ProviderUnavailable(e) => Failed(ProviderError(e))
      case CredentialsUnavailable(e) => Failed(CredentialsError(e))
      case Fetched(c) => Built(Settle(config, uri.value, ConvertedRegion(config, toRegion), Some(c)))
  }

  /**
   * Every setting `es` resolves is the configured value or the documented
   * default; gzip is on unless compression is `none` or the provider is AWS;
   * credentials are present exactly for the AWS provider, and then so is a
   * region; `Authorization` is the basic credential of the configuration.
   */
  lemma ResolveSettings(config: Config, parseUri: UriParser, toRegion: RegionConversion, fetch: CredentialsFetch)
    ensures Resolve(config, parseUri, toRegion, fetch).Built? ==>
      var s := Resolve(config, parseUri, toRegion, fetch).value;
      && SignedModeConsistent(s)
      && s.uri == parseUri(config.host + BulkPathQuery(config.query)).value
      && s.gzip == (!IsAws(config) && config.compression != Some(Uncompressed))
      && (s.credentials.Some? <==> IsAws(config))
      && (IsAws(config) ==> fetch.Fetched? && s.credentials == Some(fetch.credentials))
      && (config.region.None? ==> s.region.None?)
      && (config.region.Some? ==> s.region == Some(toRegion(config.region.value).value))
      && s.idKey == config.idKey
      && s.batchSize == config.batchSize.GetOr(10485760)
      && s.batchTimeoutSecs == config.batchTimeout.GetOr(1)
      && s.timeoutSecs == config.requestTimeoutSecs.GetOr(60)
      && s.inFlightLimit == config.requestInFlightLimit.GetOr(5)
      && s.rateLimitDurationSecs == config.requestRateLimitDurationSecs.GetOr(1)
      && s.rateLimitNum == config.requestRateLimitNum.GetOr(5)
      && s.retryAttempts == config.requestRetryAttempts.GetOr(0xFFFF_FFFF_FFFF_FFFF)
      && s.retryBackoffSecs == config.requestRetryBackoffSecs.GetOr(1)
      && s.index == Template(config.index.GetOr(DefaultIndex()))
      && s.docType == config.docType.GetOr(DefaultDocType())
      && (config.basicAuth.None? ==> s.authorization.None?)
      && (config.basicAuth.Some? ==> s.authorization == Some(BasicAuthorization(config.basicAuth.value)))
      && s.headers == config.headers.GetOr([])
  {
  }

  /**
   * How `es` fails: it panics exactly when the bulk URI does not parse; it
   * returns an error exactly when the region does not convert or, for the
   * AWS provider, when no region is configured or no credentials come.
   */
  lemma ResolveFailures(config: Config, parseUri: UriParser, toRegion: RegionConversion, fetch: CredentialsFetch)
    ensures var r := Resolve(config, parseUri, toRegion, fetch);
      var parsed := parseUri(config.host + BulkPathQuery(config.query)).Some?;
      && (r.Panicked? <==> !parsed)
      && (r == Panicked(InvalidHost()) <==> !parsed)
      && (r.Failed? <==> parsed && (RegionError(config, toRegion).Some?
                                    || (IsAws(config) && (config.region.None? || !fetch.Fetched?))))
      && (parsed && RegionError(config, toRegion).Some? ==> r == Failed(RegionError(config, toRegion).value))
      && (parsed && RegionError(config, toRegion).None? && IsAws(config) && config.region.None? ==>
            r == Failed(RegionRequired()))
      && (parsed && RegionError(config, toRegion).None? && IsAws(config) && config.region.Some? ==>
            && (fetch.ProviderUnavailable? ==> r == Failed(ProviderError(fetch.error)))
            && (fetch.CredentialsUnavailable? ==> r == Failed(CredentialsError(fetch.error))))
  {
  }

  /** With the default provider nothing depends on the credential fetch, which is never made. */
  lemma DefaultProviderIgnoresFetch(config: Config, parseUri: UriParser, toRegion: RegionConversion,
                                    f1: CredentialsFetch, f2: CredentialsFetch)
    requires !IsAws(config)
    ensures Resolve(config, parseUri, toRegion, f1) == Resolve(config, parseUri, toRegion, f2)
  {
  }

  /**
   * The part of `es` before the service stack is assembled, step by step.
   * URI parsing, region conversion and the credential fetch are the parameters.
   */
  method Es(config: Config, parseUri: UriParser, toRegion: RegionConversion, fetch: CredentialsFetch)
    returns (r: Outcome<Settings, Bytes>)
    ensures r == Resolve(config, parseUri, toRegion, fetch)
  {
    var idKey := config.idKey;
    var gzip := config.compression.GetOr(Gzip) == Gzip;

    var batchSize := config.batchSize.GetOr(DEFAULT_BATCH_SIZE);
    var batchTimeout := config.batchTimeout.GetOr(DEFAULT_BATCH_TIMEOUT_SECS);

    var timeout := config.requestTimeoutSecs.GetOr(DEFAULT_REQUEST_TIMEOUT_SECS);
    var inFlightLimit := config.requestInFlightLimit.GetOr(DEFAULT_IN_FLIGHT_LIMIT);
    var rateLimitDuration := config.requestRateLimitDurationSecs.GetOr(DEFAULT_RATE_LIMIT_DURATION_SECS);
    var rateLimitNum := config.requestRateLimitNum.GetOr(DEFAULT_RATE_LIMIT_NUM);
    var retryAttempts := config.requestRetryAttempts.GetOr(DEFAULT_RETRY_ATTEMPTS);
    var retryBackoffSecs := config.requestRetryBackoffSecs.GetOr(DEFAULT_RETRY_BACKOFF_SECS);

    var index := Template(config.index.GetOr(DefaultIndex()));
    var docType := config.docType.GetOr(DefaultDocType());

    var authorization := if config.basicAuth.Some? then Some(BasicAuthorization(config.basicAuth.value)) else None;
    var headers := config.headers.GetOr([]);

    var pathQuery := AppendQuery(config.query);
    var uri := parseUri(config.host + pathQuery);
    if uri.None? {
      return Panicked(InvalidHost());
    }

    var region: Option<Region> := None;
    if config.region.Some? {
      var converted := toRegion(config.region.value);
      if converted.Failure? {
        return Failed(converted.error);
      }
      region := Some(converted.value);
    }
    assert region == ConvertedRegion(config, toRegion) && RegionError(config, toRegion).None?;

    var credentials: Option<AwsCredentials> := None;
    if config.provider.GetOr(Default) == Aws {
      gzip := false;
      if region.None? {
        return Failed(RegionRequired());
      }
      match fetch
      case ProviderUnavailable(e) =>
        return Failed(ProviderError(e));
      case CredentialsUnavailable(e) =>
        return Failed(CredentialsError(e));
      case Fetched(c) =>
        credentials := Some(c);
    }

    r := Built(Settings(idKey, gzip, batchSize, batchTimeout, timeout, inFlightLimit,
                        rateLimitDuration, rateLimitNum, retryAttempts, retryBackoffSecs,
                        index, docType, authorization, headers, uri.value, region, credentials));
  }

  /** The flag `Buffer::new(gzip)` receives: the batch body is compressed exactly when this holds. */
  function BufferCompressed(s: Settings): bool { s.gzip }

  // ---------------------------------------------------------------------
  // Encoding one event (`encode_event`, `maybe_set_id`)
  // ---------------------------------------------------------------------

  function IdField(): Bytes { Ascii("_id") }
  function IndexField(): Bytes { Ascii("_index") }
  function TypeField(): Bytes { Ascii("_type") }
  function IndexKey(): Bytes { Ascii("index") }

  /**
   * `maybe_set_id`: when an id key is configured and the event has that
   * field, `_id` is set to the field's text; otherwise `doc` is unchanged.
   */
  function MaybeSetId(key: Option<Bytes>, doc: Json.Json, event: LogEvent): (r: Json.Json)
    requires doc.Object?
    ensures r.Object?
    ensures key.Some? && event.Get(key.value).Some? ==>
      Json.Get(r.members, IdField()) == Some(Json.String(ToStringLossy(event.Get(key.value).value)))
    ensures forall k | k != IdField() :: Json.Get(r.members, k) == Json.Get(doc.members, k)
    ensures Json.Keys(r.members) == Json.Keys(doc.members) + (if key.Some? && event.Get(key.value).Some? then {IdField()} else {})
    ensures key.None? || event.Get(key.value).None? ==> r == doc
    ensures Json.Sorted(doc.members) ==> Json.Sorted(r.members)
  {
    if key.Some? && event.Get(key.value).Some? then
      var val := ToStringLossy(event.Get(key.value).value);
      var r := Json.Object(Json.Insert(doc.members, IdField(), Json.String(val)));
      if Json.Sorted(doc.members) then
        Json.InsertKeepsSorted(doc.members, IdField(), Json.String(val));
        r
      else r
    else doc
  }

  /**
   * The three unit tests, each on the empty object `{}`: an event carrying
   * `foo = "bar"` gets `_id` "bar" under id key `foo`, and is left alone when
   * no id key is configured; an event without `foo` (it carries `not_foo`)
   * is left alone under id key `foo`. The events may carry other fields,
   * such as the message and timestamp of `Event::from`.
   */
  lemma MaybeSetIdOnEmptyObject(withFoo: LogEvent, withNotFoo: LogEvent)
    requires Ascii("foo") in withFoo.fields && withFoo.fields[Ascii("foo")] == Raw(Ascii("bar"))
    requires Ascii("not_foo") in withNotFoo.fields && Ascii("foo") !in withNotFoo.fields
    ensures MaybeSetId(Some(Ascii("foo")), Json.Object([]), withFoo) == Json.Object([(IdField(), Json.String(Ascii("bar")))])
    ensures MaybeSetId(Some(Ascii("foo")), Json.Object([]), withNotFoo) == Json.Object([])
    ensures MaybeSetId(None, Json.Object([]), withFoo) == Json.Object([])
  {
  }

  /** `json!({"_index": index, "_type": doc_type})`. */
  function IndexTarget(index: Bytes, docType: Bytes): Json.Json {
    Json.Object([(IndexField(), Json.String(index)), (TypeField(), Json.String(docType))])
  }

  /** The whole action object, with `maybe_set_id` applied to its `/index` member. */
  function Action(index: Bytes, docType: Bytes, idKey: Option<Bytes>, event: LogEvent): Json.Json {
    Json.Object([(IndexKey(), MaybeSetId(idKey, IndexTarget(index, docType), event))])
  }

  /** The document `encode_event` produces, or `None` when the template does not render. */
  function Document(event: LogEvent, index: Template, docType: Bytes, idKey: Option<Bytes>,
                    render: Renderer, unflatten: Unflattener): Option<Bytes>
  {
    match render(index, event)
    case Failure(_) => None
    case Success(name) =>
      Some(Json.Serialize(Action(name, docType, idKey, event)) + [NL] + Json.Serialize(unflatten(event)) + [NL])
  }

  /** `encode_event`: the byte buffer is built in the source's order of pushes. */
  method EncodeEvent(event: LogEvent, index: Template, docType: Bytes, idKey: Option<Bytes>,
                     render: Renderer, unflatten: Unflattener) returns (r: Option<Bytes>)
    ensures r == Document(event, index, docType, idKey, render, unflatten)
  {
    var rendered := render(index, event);
    if rendered.Failure? {
      return None;
    }
    var action := IndexTarget(rendered.value, docType);
    action := MaybeSetId(idKey, action, event);
    action := Json.Object([(IndexKey(), action)]);

    var body := Json.Serialize(action);
    body := body + [NL];
    body := body + Json.Serialize(unflatten(event));
    body := body + [NL];
    r := Some(body);
  }

  /** The event is dropped exactly when its index template does not render. */
  lemma DocumentDroppedIffRenderFails(event: LogEvent, index: Template, docType: Bytes, idKey: Option<Bytes>,
                                      render: Renderer, unflatten: Unflattener)
    ensures Document(event, index, docType, idKey, render, unflatten).None? <==> render(index, event).Failure?
  {
  }

  /**
   * A kept event is exactly two lines, the serialized action and the
   * serialized body, each terminated by a newline.
   */
  lemma DocumentIsTwoLines(event: LogEvent, index: Template, docType: Bytes, idKey: Option<Bytes>,
                           render: Renderer, unflatten: Unflattener)
    requires render(index, event).Success?
    ensures var doc := Document(event, index, docType, idKey, render, unflatten).value;
      var action := Action(render(index, event).value, docType, idKey, event);
      && doc == Unlines([Json.Serialize(action), Json.Serialize(unflatten(event))])
      && Lines(doc) == [Json.Serialize(action), Json.Serialize(unflatten(event))]
      && doc[|doc| - 1] == NL
  {
    var action := Action(render(index, event).value, docType, idKey, event);
    var ls := [Json.Serialize(action), Json.Serialize(unflatten(event))];
    Json.SerializeHasNoNewline(action);
    Json.SerializeHasNoNewline(unflatten(event));
    UnlinesPair(ls[0], ls[1], []);
    assert ls + [] == ls;
    LinesOfUnlines(ls);
  }

  /** The members of `json!({"_index": index, "_type": doc_type})`, before `maybe_set_id`. */
  lemma IndexTargetShape(name: Bytes, docType: Bytes)
    ensures var t := IndexTarget(name, docType);
      && Json.Sorted(t.members)
      && Json.Keys(t.members) == {IndexField(), TypeField()}
      && Json.Get(t.members, IndexField()) == Some(Json.String(name))
      && Json.Get(t.members, TypeField()) == Some(Json.String(docType))
      && Json.Get(t.members, IdField()) == None
  {
    var t := IndexTarget(name, docType);
    var ti := (IndexField(), Json.String(name));
    var tt := (TypeField(), Json.String(docType));
    Json.KeysCons(tt, []);
    assert [tt] + [] == [tt];
    Json.KeysCons(ti, [tt]);
    assert [ti] + [tt] == t.members;
    assert Json.KeyLess(IndexField(), TypeField());
    assert IdField() != IndexField() && IdField() != TypeField();
  }

  /**
   * The action names the rendered index and the document type under
   * `index`, and carries `_id` exactly when the id key is configured and
   * present on the event, equal to that field's text.
   */
  lemma ActionContents(name: Bytes, docType: Bytes, idKey: Option<Bytes>, event: LogEvent)
    ensures var a := Action(name, docType, idKey, event);
      && Json.Keys(a.members) == {IndexKey()}
      && var target := Json.Get(a.members, IndexKey()).value;
      && target.Object?
      && Json.Sorted(target.members)
      && Json.Get(target.members, IndexField()) == Some(Json.String(name))
      && Json.Get(target.members, TypeField()) == Some(Json.String(docType))
      && Json.Keys(target.members) == {IndexField(), TypeField()}
           + (if idKey.Some? && idKey.value in event.fields then {IdField()} else {})
      && (IdField() in Json.Keys(target.members) <==> idKey.Some? && idKey.value in event.fields)
      && (idKey.Some? && idKey.value in event.fields ==>
            Json.Get(target.members, IdField()) == Some(Json.String(ToStringLossy(event.fields[idKey.value]))))
  {
    var t := IndexTarget(name, docType);
    IndexTargetShape(name, docType);
    var m := (IndexKey(), MaybeSetId(idKey, t, event));
    Json.KeysCons(m, []);
    assert [m] + [] == [m];
  }


  /** `with_flat_map(|e| iter_ok(encode_event(e, ..)))`: the documents of the kept events, in order. */
  function EncodeStream(events: seq<LogEvent>, index: Template, docType: Bytes, idKey: Option<Bytes>,
                        render: Renderer, unflatten: Unflattener): (docs: seq<Bytes>)
    ensures |docs| == Rendered(events, index, render)
    ensures |docs| <= |events|
  {
    if events == [] then []
    else
      var rest := EncodeStream(events[1..], index, docType, idKey, render, unflatten);
      match Document(events[0], index, docType, idKey, render, unflatten)
      case None => rest
      case Some(doc) => [doc] + rest
  }

  /** How many of the events render their index template. */
  function Rendered(events: seq<LogEvent>, index: Template, render: Renderer): nat {
    if events == [] then 0
    else (if render(index, events[0]).Success? then 1 else 0) + Rendered(events[1..], index, render)
  }

  /** The documents written one after another, as the batch buffer holds them. */
  function Concat(docs: seq<Bytes>): Bytes {
    if docs == [] then [] else docs[0] + Concat(docs[1..])
  }

  /** The lines of a stream's payload: for each kept event its action, then its body. */
  function StreamLines(events: seq<LogEvent>, index: Template, docType: Bytes, idKey: Option<Bytes>,
                       render: Renderer, unflatten: Unflattener): (ls: seq<Bytes>)
    ensures |ls| == 2 * Rendered(events, index, render)
    ensures forall k | 0 <= k < |ls| :: NL !in ls[k]
  {
    if events == [] then []
    else
      var rest := StreamLines(events[1..], index, docType, idKey, render, unflatten);
      match render(index, events[0])
      case Failure(_) => rest
      case Success(name) =>
        var action := Action(name, docType, idKey, events[0]);
        Json.SerializeHasNoNewline(action);
        Json.SerializeHasNoNewline(unflatten(events[0]));
        [Json.Serialize(action), Json.Serialize(unflatten(events[0]))] + rest
  }

  lemma UnlinesPair(x: Bytes, y: Bytes, rest: seq<Bytes>)
    ensures Unlines([x, y] + rest) == Unlines([x, y]) + Unlines(rest)
  {
    assert ([x, y] + rest)[1..] == [y] + rest;
    assert ([y] + rest)[1..] == rest;
    assert [x, y][1..] == [y];
    assert [y][1..] == [];
    assert Unlines([y]) == y + [NL] + Unlines([]);
    assert Unlines([x, y]) == x + [NL] + (y + [NL]);
    assert Unlines([x, y] + rest) == x + [NL] + (y + [NL] + Unlines(rest));
  }

  /** The batch payload is the kept events' action and body lines, each newline-terminated. */
  lemma {:induction false} StreamPayload(events: seq<LogEvent>, index: Template, docType: Bytes,
                                         idKey: Option<Bytes>, render: Renderer, unflatten: Unflattener)
    ensures Concat(EncodeStream(events, index, docType, idKey, render, unflatten))
      == Unlines(StreamLines(events, index, docType, idKey, render, unflatten))
    decreases |events|
  {
    if events != [] {
      StreamPayload(events[1..], index, docType, idKey, render, unflatten);
      var r := render(index, events[0]);
      if r.Success? {
        var action := Action(r.value, docType, idKey, events[0]);
        var x, y := Json.Serialize(action), Json.Serialize(unflatten(events[0]));
        var rest := StreamLines(events[1..], index, docType, idKey, render, unflatten);
        DocumentIsTwoLines(events[0], index, docType, idKey, render, unflatten);
        UnlinesPair(x, y, rest);
        var docs := EncodeStream(events, index, docType, idKey, render, unflatten);
        assert docs[1..] == EncodeStream(events[1..], index, docType, idKey, render, unflatten);
      }
    }
  }

  /** The payload of a batch splits back into exactly two lines per kept event. */
  lemma StreamLineCount(events: seq<LogEvent>, index: Template, docType: Bytes,
                        idKey: Option<Bytes>, render: Renderer, unflatten: Unflattener)
    ensures Lines(Concat(EncodeStream(events, index, docType, idKey, render, unflatten)))
      == StreamLines(events, index, docType, idKey, render, unflatten)
    ensures |Lines(Concat(EncodeStream(events, index, docType, idKey, render, unflatten)))|
      == 2 * Rendered(events, index, render)
  {
    StreamPayload(events, index, docType, idKey, render, unflatten);
    LinesOfUnlines(StreamLines(events, index, docType, idKey, render, unflatten));
  }

  // ---------------------------------------------------------------------
  // The bulk request (the `HttpService` closure)
  // ---------------------------------------------------------------------

  function ContentTypeHeader(): Header { (Ascii("Content-Type"), Ascii("application/x-ndjson")) }
  function ContentEncodingHeader(): Header { (Ascii("Content-Encoding"), Ascii("gzip")) }
  function AuthorizationName(): Bytes { Ascii("Authorization") }

  /** The message `unwrap` panics with when the builder recorded an error. */
  function UnwrapFailed(): Bytes { Ascii("called `Result::unwrap()` on an `Err` value") }
  function BadHeaderName(): Bytes { Ascii("Could not parse header name.") }
  function BadHeaderValue(): Bytes { Ascii("Could not parse header value.") }

  /** The headers of an unsigned request, in the order they are added. */
  function PlainHeaders(s: Settings): seq<Header> {
    [ContentTypeHeader()]
    + (if s.gzip then [ContentEncodingHeader()] else [])
    + s.headers
    + (if s.authorization.Some? then [(AuthorizationName(), s.authorization.value)] else [])
  }

  /** The unsigned request for a batch: a POST of the body, or the builder's panic. */
  function PlainOutcome(s: Settings, syntax: HeaderSyntax, body: Bytes): Outcome<Request, Bytes> {
    if AcceptsAll(syntax, PlainHeaders(s)) then Built(Request(Post, s.uri, PlainHeaders(s), body))
    else Panicked(UnwrapFailed())
  }

  lemma AcceptsAllSnoc(syntax: HeaderSyntax, hs: seq<Header>, h: Header)
    ensures AcceptsAll(syntax, hs + [h]) <==> AcceptsAll(syntax, hs) && Accepts(syntax, h)
  {
    if AcceptsAll(syntax, hs + [h]) {
      assert (hs + [h])[|hs|] == h;
      forall k | 0 <= k < |hs| ensures Accepts(syntax, hs[k]) {
        assert (hs + [h])[k] == hs[k];
      }
    }
  }

  /** The builder is a POST of `uri` whose headers so far are `hs`, or has failed on one of them. */
  predicate Tracks(b: RequestBuilder, uri: Uri, hs: seq<Header>, syntax: HeaderSyntax)
    reads b
  {
    && b.verb == Post && b.uri == uri
    && (b.failed <==> !AcceptsAll(syntax, hs))
    && (!b.failed ==> b.headers == hs)
  }

  method AddTracked(b: RequestBuilder, ghost uri: Uri, ghost hs: seq<Header>, h: Header, syntax: HeaderSyntax)
    requires Tracks(b, uri, hs, syntax)
    modifies b
    ensures Tracks(b, uri, hs + [h], syntax)
  {
    AcceptsAllSnoc(syntax, hs, h);
    b.AddHeader(h, syntax);
  }

  /** `builder.header` for each of `extra`, in order. */
  method AddAll(b: RequestBuilder, ghost uri: Uri, ghost hs: seq<Header>, extra: seq<Header>, syntax: HeaderSyntax)
    requires Tracks(b, uri, hs, syntax)
    modifies b
    ensures Tracks(b, uri, hs + extra, syntax)
  {
    assert hs + extra[..0] == hs;
    for i := 0 to |extra|
      invariant Tracks(b, uri, hs + extra[..i], syntax)
    {
      AddTracked(b, uri, hs + extra[..i], extra[i], syntax);
      assert hs + extra[..i] + [extra[i]] == hs + extra[..i + 1];
    }
    assert extra[..|extra|] == extra;
  }

  /** The `None` arm of the closure: headers in order, then `builder.body(body).unwrap()`. */
  method PlainRequest(s: Settings, syntax: HeaderSyntax, body: Bytes) returns (r: Outcome<Request, Bytes>)
    ensures r == PlainOutcome(s, syntax, body)
  {
    var builder := new RequestBuilder();
    builder.SetMethod(Post);
    builder.SetUri(s.uri);

    ghost var head: seq<Header> := [ContentTypeHeader()];
    AddTracked(builder, s.uri, [], ContentTypeHeader(), syntax);
    assert [] + [ContentTypeHeader()] == head;
    if s.gzip {
      AddTracked(builder, s.uri, head, ContentEncodingHeader(), syntax);
      head := head + [ContentEncodingHeader()];
    }
    AddAll(builder, s.uri, head, s.headers, syntax);
    ghost var added := head + s.headers;
    if s.authorization.Some? {
      AddTracked(builder, s.uri, added, (AuthorizationName(), s.authorization.value), syntax);
      added := added + [(AuthorizationName(), s.authorization.value)];
    }
    assert added == PlainHeaders(s);

    var request := builder.Body(body);
    if request.None? {
      r := Panicked(UnwrapFailed());
    } else {
      r := Built(request.value);
    }
  }

  /**
   * Where each header of an unsigned request sits: `Content-Type` first,
   * `Content-Encoding: gzip` next exactly when compressing, the configured
   * headers after them in their order, `Authorization` last exactly when
   * basic authentication is configured.
   */
  lemma PlainHeadersLayout(s: Settings)
    ensures var hs := PlainHeaders(s);
      var e := if s.gzip then 2 else 1;
      && hs[0] == ContentTypeHeader()
      && (s.gzip ==> hs[1] == ContentEncodingHeader())
      && |hs| == e + |s.headers| + (if s.authorization.Some? then 1 else 0)
      && hs[e..e + |s.headers|] == s.headers
      && (s.authorization.Some? ==> hs[|hs| - 1] == (AuthorizationName(), s.authorization.value))
  {
  }

  predicate NoHeaderNamed(hs: seq<Header>, name: Bytes) {
    forall k | 0 <= k < |hs| :: hs[k].0 != name
  }

  /**
   * The request announces gzip exactly when the batch buffer compresses,
   * unless a configured header of that name says otherwise.
   */
  lemma PlainEncodingMatchesBuffer(s: Settings)
    requires NoHeaderNamed(s.headers, ContentEncodingHeader().0)
    ensures BufferCompressed(s) <==> !NoHeaderNamed(PlainHeaders(s), ContentEncodingHeader().0)
    ensures BufferCompressed(s) ==> ContentEncodingHeader() in PlainHeaders(s)
  {
    var hs := PlainHeaders(s);
    assert ContentTypeHeader().0 != ContentEncodingHeader().0 by {
      assert ContentTypeHeader().0[8] != ContentEncodingHeader().0[8];
    }
    assert AuthorizationName() != ContentEncodingHeader().0 by {
      assert |AuthorizationName()| != |ContentEncodingHeader().0|;
    }
    var e := if s.gzip then 2 else 1;
    if s.gzip {
      assert hs[1] == ContentEncodingHeader();
    } else {
      forall k | 0 <= k < |hs| ensures hs[k].0 != ContentEncodingHeader().0 {
        if k > 0 && k < 1 + |s.headers| {
          assert hs[k] == s.headers[k - 1];
        }
      }
    }
  }

  /** An unsigned request that is built carries the batch body unchanged, to the bulk URI. */
  lemma PlainOutcomeBuilt(s: Settings, syntax: HeaderSyntax, body: Bytes)
    ensures PlainOutcome(s, syntax, body).Built? <==> AcceptsAll(syntax, PlainHeaders(s))
    ensures PlainOutcome(s, syntax, body).Built? ==>
      var req := PlainOutcome(s, syntax, body).value;
      req.verb == Post && req.uri == s.uri && req.body == body
  {
  }

  /** The `Authorization` value of an unsigned request decodes to `user:password`. */
  lemma PlainAuthorizationDecodes(config: Config, s: Settings)
    requires config.basicAuth.Some?
    requires s.authorization == Some(BasicAuthorization(config.basicAuth.value))
    ensures var last := PlainHeaders(s)[|PlainHeaders(s)| - 1];
      && last.0 == AuthorizationName()
      && last.1[..6] == BasicPrefix()
      && Base64.Decode(last.1[6..]) == Some(config.basicAuth.value.user + [COLON] + config.basicAuth.value.password)
  {
    BasicAuthorizationDecodes(config.basicAuth.value);
  }

  // --- signed mode -------------------------------------------------------

  /**
   * `SignedRequest` as the closure fills it in before signing: method,
   * service, region, path, host name, headers and payload.
   */
  datatype SigningRequest = SigningRequest(
    verb: Bytes, service: Bytes, region: Region, path: Bytes,
    hostname: Option<Bytes>, headers: seq<Header>, payload: Bytes)

  /** `sign_with_plus`, then `headers()`: each header name with its values. */
  type Signer = (SigningRequest, AwsCredentials) -> seq<(Bytes, seq<Bytes>)>

  function ToSign(s: Settings, body: Bytes): SigningRequest
    requires s.region.Some?
  {
    SigningRequest(Ascii("POST"), Ascii("es"), s.region.value, s.uri.path, s.uri.host,
                   [ContentTypeHeader()] + s.headers, body)
  }

  /** The values of one accepted header name as `(name, value)` pairs, or the first rejection. */
  function SignedValues(name: Bytes, values: seq<Bytes>, syntax: HeaderSyntax): (r: Result<seq<Header>, Bytes>)
    requires syntax.name(name)
    ensures r.Failure? ==> r.error == BadHeaderValue()
    ensures r.Success? ==> |r.value| == |values| && AcceptsAll(syntax, r.value)
  {
    if values == [] then Success([])
    else
      match SignedValues(name, values[..|values| - 1], syntax)
      case Failure(e) => Failure(e)
      case Success(prev) =>
        var h := (name, values[|values| - 1]);
        if !syntax.value(h.1) then Failure(BadHeaderValue())
        else (AcceptsAllSnoc(syntax, prev, h); Success(prev + [h]))
  }

  /**
   * Every signed header copied in order, one header per value, or the panic
   * of the first name or value `http` rejects.
   */
  function SignedHeaders(signed: seq<(Bytes, seq<Bytes>)>, syntax: HeaderSyntax): (r: Result<seq<Header>, Bytes>)
    ensures r.Failure? ==> r.error == BadHeaderName() || r.error == BadHeaderValue()
    ensures r.Success? ==> AcceptsAll(syntax, r.value)
  {
    if signed == [] then Success([])
    else
      match SignedHeaders(signed[..|signed| - 1], syntax)
      case Failure(e) => Failure(e)
      case Success(prev) =>
        var last := signed[|signed| - 1];
        if !syntax.name(last.0) then Failure(BadHeaderName())
        else
          match SignedValues(last.0, last.1, syntax)
          case Failure(e) => Failure(e)
          case Success(vs) => (AcceptsAllConcat(syntax, prev, vs); Success(prev + vs))
  }

  lemma AcceptsAllConcat(syntax: HeaderSyntax, a: seq<Header>, b: seq<Header>)
    requires AcceptsAll(syntax, a) && AcceptsAll(syntax, b)
    ensures AcceptsAll(syntax, a + b)
  {
    forall k | 0 <= k < |a + b| ensures Accepts(syntax, (a + b)[k]) {
      if k < |a| {
        assert (a + b)[k] == a[k];
      } else {
        assert (a + b)[k] == b[k - |a|];
      }
    }
  }

  /** The signed request for a batch: a POST of the unchanged body, or the copy loop's panic. */
  function SignedOutcome(s: Settings, signer: Signer, syntax: HeaderSyntax, body: Bytes): Outcome<Request, Bytes>
    requires s.region.Some? && s.credentials.Some?
  {
    match SignedHeaders(signer(ToSign(s, body), s.credentials.value), syntax)
    case Failure(e) => Panicked(e)
    case Success(hs) => Built(Request(Post, s.uri, hs, body))
  }

  lemma {:induction false} ValuesFailurePersists(name: Bytes, values: seq<Bytes>, m: nat, syntax: HeaderSyntax)
    requires syntax.name(name) && m <= |values|
    requires SignedValues(name, values[..m], syntax).Failure?
    ensures SignedValues(name, values, syntax) == SignedValues(name, values[..m], syntax)
    decreases |values|
  {
    if m < |values| {
      var init := values[..|values| - 1];
      assert init[..m] == values[..m];
      ValuesFailurePersists(name, init, m, syntax);
    } else {
      assert values[..m] == values;
    }
  }

  lemma {:induction false} HeadersFailurePersists(signed: seq<(Bytes, seq<Bytes>)>, m: nat, syntax: HeaderSyntax)
    requires m <= |signed|
    requires SignedHeaders(signed[..m], syntax).Failure?
    ensures SignedHeaders(signed, syntax) == SignedHeaders(signed[..m], syntax)
    decreases |signed|
  {
    if m < |signed| {
      var init := signed[..|signed| - 1];
      assert init[..m] == signed[..m];
      HeadersFailurePersists(init, m, syntax);
    } else {
      assert signed[..m] == signed;
    }
  }

  /** When every name and value is accepted, each value becomes one header, in the signer's order. */
  function Flatten(signed: seq<(Bytes, seq<Bytes>)>): seq<Header> {
    if signed == [] then []
    else
      var last := signed[|signed| - 1];
      Flatten(signed[..|signed| - 1]) + Pairs(last.0, last.1)
  }

  /** The headers `(name, v)` for each value `v`, in order. */
  function Pairs(name: Bytes, values: seq<Bytes>): (r: seq<Header>)
    ensures |r| == |values| && forall i | 0 <= i < |values| :: r[i] == (name, values[i])
  {
    seq(|values|, i requires 0 <= i < |values| => (name, values[i]))
  }

  lemma {:induction false} SignedValuesAllAccepted(name: Bytes, values: seq<Bytes>, syntax: HeaderSyntax)
    requires syntax.name(name)
    requires forall i | 0 <= i < |values| :: syntax.value(values[i])
    ensures SignedValues(name, values, syntax) == Success(Pairs(name, values))
    decreases |values|
  {
    if values != [] {
      var init := values[..|values| - 1];
      SignedValuesAllAccepted(name, init, syntax);
      assert Pairs(name, values) == Pairs(name, init) + [(name, values[|values| - 1])];
    }
  }

  /** Signed mode copies exactly the signer's headers when `http` accepts them all. */
  lemma {:induction false} SignedHeadersAllAccepted(signed: seq<(Bytes, seq<Bytes>)>, syntax: HeaderSyntax)
    requires forall k | 0 <= k < |signed| :: syntax.name(signed[k].0)
    requires forall k, i | 0 <= k < |signed| && 0 <= i < |signed[k].1| :: syntax.value(signed[k].1[i])
    ensures SignedHeaders(signed, syntax) == Success(Flatten(signed))
    decreases |signed|
  {
    if signed != [] {
      var init := signed[..|signed| - 1];
      var last := signed[|signed| - 1];
      assert forall k | 0 <= k < |init| :: init[k] == signed[k];
      SignedHeadersAllAccepted(init, syntax);
      assert forall i | 0 <= i < |last.1| :: syntax.value(last.1[i]);
      SignedValuesAllAccepted(last.0, last.1, syntax);
    }
  }

  /**
   * Copying the values of one signed header succeeds exactly when `http`
   * accepts every value, and then yields one header per value, in order.
   */
  lemma {:induction false} SignedValuesAccepted(name: Bytes, values: seq<Bytes>, syntax: HeaderSyntax)
    requires syntax.name(name)
    ensures SignedValues(name, values, syntax).Success? <==> forall i | 0 <= i < |values| :: syntax.value(values[i])
    ensures SignedValues(name, values, syntax).Success? ==> SignedValues(name, values, syntax).value == Pairs(name, values)
    decreases |values|
  {
    if forall i | 0 <= i < |values| :: syntax.value(values[i]) {
      SignedValuesAllAccepted(name, values, syntax);
    } else {
      var init := values[..|values| - 1];
      SignedValuesAccepted(name, init, syntax);
      if forall i | 0 <= i < |init| :: syntax.value(init[i]) {
        assert !syntax.value(values[|values| - 1]) by {
          assert forall i | 0 <= i < |init| :: values[i] == init[i];
        }
      } else {
        assert exists i | 0 <= i < |init| :: !syntax.value(init[i]);
      }
    }
  }

  /**
   * Copying the signed headers succeeds exactly when `http` accepts every
   * name and every value, and then yields the signer's headers, one per value.
   */
  lemma {:induction false} SignedHeadersAccepted(signed: seq<(Bytes, seq<Bytes>)>, syntax: HeaderSyntax)
    ensures SignedHeaders(signed, syntax).Success? <==>
      && (forall k | 0 <= k < |signed| :: syntax.name(signed[k].0))
      && (forall k, i | 0 <= k < |signed| && 0 <= i < |signed[k].1| :: syntax.value(signed[k].1[i]))
    ensures SignedHeaders(signed, syntax).Success? ==> SignedHeaders(signed, syntax).value == Flatten(signed)
    decreases |signed|
  {
    if && (forall k | 0 <= k < |signed| :: syntax.name(signed[k].0))
       && (forall k, i | 0 <= k < |signed| && 0 <= i < |signed[k].1| :: syntax.value(signed[k].1[i]))
    {
      SignedHeadersAllAccepted(signed, syntax);
    } else {
      var init := signed[..|signed| - 1];
      var last := signed[|signed| - 1];
      SignedHeadersAccepted(init, syntax);
      assert forall k | 0 <= k < |init| :: init[k] == signed[k];
      if SignedHeaders(init, syntax).Success? && syntax.name(last.0) {
        SignedValuesAccepted(last.0, last.1, syntax);
        assert !forall i | 0 <= i < |last.1| :: syntax.value(last.1[i]);
      }
    }
  }

  /**
   * What is signed: a POST to the `es` service in the configured region,
   * for the bulk path and host, with `Content-Type` followed by the
   * configured headers, and the batch body as payload.
   */
  lemma SignedInputs(s: Settings, body: Bytes)
    requires s.region.Some?
    ensures var t := ToSign(s, body);
      && t.region == s.region.value && t.path == s.uri.path && t.hostname == s.uri.host
      && t.headers[0] == ContentTypeHeader() && t.headers[1..] == s.headers
      && t.payload == body
  {
  }

  /** A signed request that is built carries the batch body unchanged, to the bulk URI. */
  lemma SignedOutcomeBuilt(s: Settings, signer: Signer, syntax: HeaderSyntax, body: Bytes)
    requires s.region.Some? && s.credentials.Some?
    ensures var signed := signer(ToSign(s, body), s.credentials.value);
      && (SignedOutcome(s, signer, syntax, body).Built? <==> SignedHeaders(signed, syntax).Success?)
      && (SignedOutcome(s, signer, syntax, body).Built? ==>
            var req := SignedOutcome(s, signer, syntax, body).value;
            req.verb == Post && req.uri == s.uri && req.body == body && AcceptsAll(syntax, req.headers))
  {
  }

  /**
   * The inner copy loop for one signed header: `builder.header(name, v)` for
   * each value in order, stopping at the first value `http` rejects.
   */
  method CopyValues(b: RequestBuilder, ghost uri: Uri, ghost hs: seq<Header>, name: Bytes, values: seq<Bytes>,
                    syntax: HeaderSyntax)
    returns (copied: bool)
    requires Tracks(b, uri, hs, syntax) && syntax.name(name)
    modifies b
    ensures copied == SignedValues(name, values, syntax).Success?
    ensures copied ==> Tracks(b, uri, hs + SignedValues(name, values, syntax).value, syntax)
  {
    assert hs + [] == hs;
    for j := 0 to |values|
      invariant SignedValues(name, values[..j], syntax).Success?
      invariant Tracks(b, uri, hs + SignedValues(name, values[..j], syntax).value, syntax)
    {
      assert values[..j + 1][..j] == values[..j];
      var value := values[j];
      ghost var vs := SignedValues(name, values[..j], syntax).value;
      if !syntax.value(value) {
        ValuesFailurePersists(name, values, j + 1, syntax);
        return false;
      }
      AddTracked(b, uri, hs + vs, (name, value), syntax);
      assert hs + vs + [(name, value)] == hs + (vs + [(name, value)]);
    }
    assert values[..|values|] == values;
    copied := true;
  }

  /** The `Some(credentials)` arm of the closure: sign, copy every header, take the payload back. */
  method SignedRequest(s: Settings, signer: Signer, syntax: HeaderSyntax, body: Bytes)
    returns (r: Outcome<Request, Bytes>)
    requires s.region.Some? && s.credentials.Some?
    ensures r == SignedOutcome(s, signer, syntax, body)
  {
    var builder := new RequestBuilder();
    builder.SetMethod(Post);
    builder.SetUri(s.uri);

    var request := ToSign(s, body);
    var signed := signer(request, s.credentials.value);

    for k := 0 to |signed|
      invariant SignedHeaders(signed[..k], syntax).Success?
      invariant Tracks(builder, s.uri, SignedHeaders(signed[..k], syntax).value, syntax)
    {
      var name := signed[k].0;
      var values := signed[k].1;
      ghost var prev := SignedHeaders(signed[..k], syntax).value;
      assert signed[..k + 1][..k] == signed[..k];
      if !syntax.name(name) {
        HeadersFailurePersists(signed, k + 1, syntax);
        return Panicked(BadHeaderName());
      }
      var copied := CopyValues(builder, s.uri, prev, name, values, syntax);
      if !copied {
        HeadersFailurePersists(signed, k + 1, syntax);
        return Panicked(BadHeaderValue());
      }
    }
    assert signed[..|signed|] == signed;

    var built := builder.Body(request.payload);
    r := Built(built.value);
  }

  /** The closure: unsigned when no credentials were fetched, signed otherwise. */
  method BuildRequest(s: Settings, signer: Signer, syntax: HeaderSyntax, body: Bytes)
    returns (r: Outcome<Request, Bytes>)
    requires SignedModeConsistent(s)
    ensures s.credentials.None? ==> r == PlainOutcome(s, syntax, body)
    ensures s.credentials.Some? ==> r == SignedOutcome(s, signer, syntax, body)
  {
    if s.credentials.None? {
      r := PlainRequest(s, syntax, body);
    } else {
      r := SignedRequest(s, signer, syntax, body);
    }
  }

  // ---------------------------------------------------------------------
  // Healthcheck
  // ---------------------------------------------------------------------

  function HealthPath(): Bytes { Ascii("/_cluster/health") }

  function HealthcheckUri(host: Bytes): Bytes { host + HealthPath() }

  /** What the HTTP exchange yields: a transport error's text, or the response status. */
  datatype Response = TransportError(message: Bytes) | Status(code: nat)

  type Client = Request -> Response

  function UnexpectedStatus(code: nat): Bytes { Ascii("Unexpected status: ") + Decimal(code) }

  /** The healthcheck's verdict on a response. */
  function HealthVerdict(resp: Response): Result<(), Bytes> {
    match resp
    case TransportError(message) => Failure(message)
    case Status(code) => if code == 200 then Success(()) else Failure(UnexpectedStatus(code))
  }

  /**
   * The cluster is healthy exactly when it answers 200; any other status is
   * reported with its code, which can be read back from the message.
   */
  lemma HealthVerdictIff(resp: Response)
    ensures HealthVerdict(resp).Success? <==> resp == Status(200)
    ensures resp.TransportError? ==> HealthVerdict(resp) == Failure(resp.message)
    ensures resp.Status? && resp.code != 200 ==>
      var msg := HealthVerdict(resp).error;
      msg[..19] == Ascii("Unexpected status: ") && ParseDecimal(msg[19..]) == Some(resp.code)
  {
    if resp.Status? && resp.code != 200 {
      var msg := HealthVerdict(resp).error;
      assert msg[19..] == Decimal(resp.code);
      DecimalRoundTrip(resp.code);
    }
  }

  /** `healthcheck`: a GET of `<host>/_cluster/health` with an empty body. */
  method Healthcheck(host: Bytes, parseUri: UriParser, client: Client) returns (r: Outcome<(), Bytes>)
    ensures parseUri(HealthcheckUri(host)).None? ==> r == Panicked(UnwrapFailed())
    ensures parseUri(HealthcheckUri(host)).Some? ==>
      var resp := client(Request(Get, parseUri(HealthcheckUri(host)).value, [], []));
      (r == Built(()) <==> resp == Status(200))
      && (!r.Built? ==> r == Failed(HealthVerdict(resp).error))
  {
    var uri := HealthcheckUri(host);
    var parsed := parseUri(uri);
    if parsed.None? {
      return Panicked(UnwrapFailed());
    }
    var builder := new RequestBuilder();
    builder.SetUri(parsed.value);
    var request := builder.Body([]);
    var resp := client(request.value);
    HealthVerdictIff(resp);
    match HealthVerdict(resp)
    case Success(_) =>
      r := Built(());
    case Failure(e) =>
      r := Failed(e);
  }
}
