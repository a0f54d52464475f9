# Elasticsearch sink model

A Dafny model of the deterministic core of the Elasticsearch sink of the
Vector log router (`src/sinks/elasticsearch.rs`). The model covers:

- how the sink's configuration is resolved: the defaults, compression, basic
  authentication, the extra headers and query, the bulk URI, the region and
  the AWS credential set-up, and the errors and panics of each step;
- how each log event becomes a bulk-index action line and a document line;
- how a batch body becomes an HTTP request, either plain or AWS-signed;
- how the healthcheck builds its request and judges the response.

The modules follow the crates the sink relies on:

- `Bytes`: byte strings, decimal text, lines.
- `Json`: `serde_json` values with sorted-map objects and compact serialization.
- `Base64`: section 4 of RFC 4648, with padding.
- `FormUrlencoded`: the `url` crate's form-urlencoded `Serializer`, `byte_serialize` and `parse`.
- `Http`: the `http` request `Builder`, as a class.
- `Event`: the log event's lookup and `to_string_lossy`.
- `Elasticsearch`: the sink itself.

State the source changes step by step is modelled imperatively:

- the request builder;
- the query serializer;
- the header loops.

Pure code is modelled as functions. Each method is tied to a specification
function, and lemmas state the properties of that function:

- the bulk path reads back as `/_bulk` and the configured query;
- an event's bytes are exactly two newline-terminated lines;
- the `Authorization` value decodes to `user:password`;
- an unsigned request's headers come in a fixed layout;
- a signed request copies the signer's headers one per value;
- the healthcheck succeeds exactly on status 200.

Code outside the sink is a parameter of the operations that use it:

- template rendering;
- `unflatten`;
- URI parsing;
- region conversion;
- header-name and header-value syntax;
- the credential fetch;
- the request signer;
- the HTTP client.

## Model

| member | source | states |
|---|---|---|
| `Elasticsearch.Es` | src/sinks/elasticsearch.rs:82-151 | Going through the steps of `es` in order, it reaches exactly the outcome `Resolve` describes: the settled configuration, the first error returned, or the panic. The bulk URI it parses is the corrected `/_bulk[?query]` one (see Findings); `BulkPathQueryMatchesAsWritten` says when that is the source's URI. |
| `Elasticsearch.ResolveSettings` | src/sinks/elasticsearch.rs:82-115 | Every setting is the configured value or its default: 10 MiB batches, 1 s batch timeout, 60 s request timeout, 5 in flight, 5 per 1 s, `usize::MAX` retries, 1 s backoff, index `vector-%Y.%m.%d`, type `_doc`. Gzip is on unless compression is `none` or the provider is AWS. Credentials are present exactly for the AWS provider, and then a region is too. `Authorization` is `Basic ` plus the Base 64 of `user:password`. The URI is the host followed by the corrected bulk path and query. |
| `Elasticsearch.ResolveFailures` | src/sinks/elasticsearch.rs:128-151 | The errors come in source order. `es` panics with "Invalid elasticsearch host" exactly when the host followed by the corrected bulk path and query does not parse. Next comes the region conversion error, then "AWS provider requires a configured region", then the two credential errors with their prefixes. It returns an error exactly when one of these steps fails. |
| `Elasticsearch.DefaultProviderIgnoresFetch` | src/sinks/elasticsearch.rs:136-138 | With the default provider the outcome does not depend on the credential fetch. |
| `Elasticsearch.BasicAuthorizationDecodes` | src/sinks/elasticsearch.rs:112-115 | The value starts with `Basic `. The rest decodes to `user:password`. When the user has no colon, splitting at the first colon gives back the user and the password. |
| `Elasticsearch.AppendPairs` | src/sinks/elasticsearch.rs:123-127 | The loop of `append_pair` calls appends the pairs, `&`-separated. A `&` comes first only when the target already extends past the serializer's start. |
| `Elasticsearch.AppendQueryAsWritten` | src/sinks/elasticsearch.rs:122-128 | As written, with the serializer created over `/_bulk`, the result is `/_bulk` followed by `&` and the pairs whenever the configured query has at least one pair, and `/_bulk` alone otherwise. |
| `Elasticsearch.QueryAsWrittenIsLost` | src/sinks/elasticsearch.rs:122-128 | As written, a non-empty query leaves the URI with no `?`: a server sees no query parameters and a path other than `/_bulk`. |
| `Elasticsearch.QueryAsWrittenOnePair` | src/sinks/elasticsearch.rs:122-128 | As written, a single pair whose name and value need no escaping, such as `pipeline=p`, gives exactly `/_bulk&pipeline=p`. |
| `Elasticsearch.AppendQuery` | src/sinks/elasticsearch.rs:122-128 | The corrected path and query: `/_bulk`, and then `?` and the serialized pairs when there are any. |
| `Elasticsearch.BulkPathQueryReadsBack` | src/sinks/elasticsearch.rs:122-129 | Split at the first `?`, the corrected path and query gives back exactly `/_bulk` and the configured pairs, in order. |
| `Elasticsearch.BulkPathQueryMatchesAsWritten` | src/sinks/elasticsearch.rs:122-128 | The corrected path and query equal the ones the source builds exactly when no query pair is configured. |
| `Elasticsearch.MaybeSetId` | src/sinks/elasticsearch.rs:286-294 | With an id key that the event has, `_id` is that field's text, added or replaced. Every other key keeps its value. The key set grows by `_id` and nothing else. Sorted objects stay sorted. With no key configured or no such field, the object is unchanged. |
| `Elasticsearch.MaybeSetIdOnEmptyObject` | src/sinks/elasticsearch.rs:302-342 | The three unit tests, for events constrained only on `foo` and `not_foo`. Under id key `foo`, `{}` becomes `{"_id":"bar"}` for an event with `foo = "bar"`, and stays `{}` for an event that has `not_foo` but no `foo`. With no id key it stays `{}`. |
| `Elasticsearch.EncodeEvent` | src/sinks/elasticsearch.rs:230-264 | Builds the buffer in the source's order, and the result equals the specification `Document`: no document when the template does not render, otherwise action, NL, body, NL. |
| `Elasticsearch.DocumentDroppedIffRenderFails` | src/sinks/elasticsearch.rs:236-245 | An event is dropped exactly when its index template fails to render. |
| `Elasticsearch.DocumentIsTwoLines` | src/sinks/elasticsearch.rs:258-263 | A kept event's bytes split into exactly two lines, the serialized action and the serialized event, and end in a newline. |
| `Elasticsearch.ActionContents` | src/sinks/elasticsearch.rs:247-256 | The action has the single key `index`. Under it, `_index` is the rendered index and `_type` is the document type. Those are its only keys, together with `_id`, which is present exactly when the id key is configured and on the event, and then equals that field's text. |
| `Elasticsearch.EncodeStream` | src/sinks/elasticsearch.rs:225 | The flat map yields one document per event whose template renders, so never more documents than events. |
| `Elasticsearch.StreamPayload` | src/sinks/elasticsearch.rs:225 | The concatenated documents are the action and body lines of the kept events, in order, each newline-terminated. |
| `Elasticsearch.StreamLineCount` | src/sinks/elasticsearch.rs:225 | The batch payload splits back into exactly those lines: two per kept event. |
| `Elasticsearch.AddAll` | src/sinks/elasticsearch.rs:165-167 | Each configured header is added in order: afterwards the builder holds the earlier headers followed by all of them, or has failed exactly when one of them is rejected. |
| `Elasticsearch.PlainRequest` | src/sinks/elasticsearch.rs:153-173 | The unsigned request is a POST to the bulk URI with the headers of `PlainHeaders` and the body unchanged. It panics when `http` rejects any of those headers. |
| `Elasticsearch.PlainHeadersLayout` | src/sinks/elasticsearch.rs:159-171 | `Content-Type: application/x-ndjson` comes first, then `Content-Encoding: gzip` when compressing, then the configured headers in order, then `Authorization` when basic authentication is configured, and nothing else: the length is one, plus one when compressing, plus the configured headers, plus one with basic authentication. |
| `Elasticsearch.PlainEncodingMatchesBuffer` | src/sinks/elasticsearch.rs:159-163 | When no configured header is named `Content-Encoding`, the request announces gzip exactly when the batch buffer compresses. |
| `Elasticsearch.PlainOutcomeBuilt` | src/sinks/elasticsearch.rs:153-173 | The unsigned request is built exactly when every header is accepted. It then carries POST, the bulk URI and the body unchanged. |
| `Elasticsearch.PlainAuthorizationDecodes` | src/sinks/elasticsearch.rs:169-171 | The last header of an authenticated request is `Authorization`. Its value decodes to `user:password`. |
| `Elasticsearch.SignedInputs` | src/sinks/elasticsearch.rs:176-186 | What is signed: the configured region, the URI's path and host, `Content-Type` followed by the configured headers, and the body as payload. |
| `Elasticsearch.SignedValues` | src/sinks/elasticsearch.rs:194-198 | Each value of one header name becomes one accepted header. Otherwise the result is the error "Could not parse header value.". |
| `Elasticsearch.SignedHeaders` | src/sinks/elasticsearch.rs:190-199 | The copy of the signed headers holds only accepted headers. It fails only with the header-name or header-value message. |
| `Elasticsearch.SignedHeadersAllAccepted` | src/sinks/elasticsearch.rs:190-199 | When every name and value is accepted, the request headers are the signer's headers, one per value, in the signer's order. |
| `Elasticsearch.SignedValuesAccepted` | src/sinks/elasticsearch.rs:194-198 | Copying one name's values succeeds exactly when every value is accepted, and then gives one header per value, in order. |
| `Elasticsearch.SignedHeadersAccepted` | src/sinks/elasticsearch.rs:190-199 | Copying the signed headers succeeds exactly when every name and every value is accepted, and then gives the signer's headers, one per value, in order. A rejected name or value therefore always panics. |
| `Elasticsearch.CopyValues` | src/sinks/elasticsearch.rs:194-198 | The inner loop over one name's values succeeds exactly when `SignedValues` does, and then the builder holds the earlier headers followed by one header per value. |
| `Elasticsearch.SignedRequest` | src/sinks/elasticsearch.rs:175-207 | The nested copy loop equals `SignedOutcome`. It panics with the first rejected name or value; otherwise it is a POST with the copied headers and the body unchanged. |
| `Elasticsearch.SignedOutcomeBuilt` | src/sinks/elasticsearch.rs:201-206 | A signed request is built exactly when the copy succeeds. It then carries POST, the bulk URI, the original body and only accepted headers. |
| `Elasticsearch.BuildRequest` | src/sinks/elasticsearch.rs:153-208 | Without credentials the request is the unsigned one, and with credentials it is the signed one. It is defined for every settings value `Es` can produce. |
| `Elasticsearch.HealthVerdictIff` | src/sinks/elasticsearch.rs:272-281 | The healthcheck succeeds exactly on status 200. A transport error is reported with its own text. Any other status is "Unexpected status: " followed by its code, and the code can be read back from the message. |
| `Elasticsearch.Healthcheck` | src/sinks/elasticsearch.rs:266-284 | A URI that does not parse panics. Otherwise the check sends a GET of the host plus `/_cluster/health` with no headers and no body, and succeeds exactly when the response is status 200; otherwise it fails with the verdict's message. |
| `Json.Insert` | src/sinks/elasticsearch.rs:290-293 | Inserting `_id` makes it map to the new value and leaves every other key's value unchanged. The key set gains exactly that key. |
| `Json.InsertKeepsSorted` | src/sinks/elasticsearch.rs:290-293 | The object stays in the byte-wise key order of `serde_json`'s map. |
| `Json.SerializeHasNoNewline` | src/sinks/elasticsearch.rs:258-261 | Compact serialization never writes a raw newline, which is what makes the action and the body each a single line. |
| `Event.ToStringLossy` | src/sinks/elasticsearch.rs:288 | The text of a byte value is its bytes, and the text of an integer parses back to that integer. |
| `FormUrlencoded.Serializer.New` | src/sinks/elasticsearch.rs:122 | `Serializer::new(target)` keeps the target as given and starts serializing at position 0. |
| `FormUrlencoded.Serializer.AppendPair` | src/sinks/elasticsearch.rs:125 | `append_pair` writes `&` exactly when the target already extends past the serializer's start, then `name=value`, form-urlencoded. |
| `FormUrlencoded.ParseSerialized` | src/sinks/elasticsearch.rs:122-128 | Parsing the serialized pairs gives them back exactly, in order. |
| `Base64.DecodeEncode` | src/sinks/elasticsearch.rs:114 | Base 64 decoding undoes the encoding of any byte string. |
| `Http.RequestBuilder.constructor` | src/sinks/elasticsearch.rs:154 | A new builder is a GET of `/` with no headers and has not failed. |
| `Http.RequestBuilder.SetMethod` | src/sinks/elasticsearch.rs:155 | The method becomes the given one unless the builder has failed; the URI, the headers and the failure flag are unchanged. |
| `Http.RequestBuilder.SetUri` | src/sinks/elasticsearch.rs:156 | The URI becomes the given one unless the builder has failed; the method, the headers and the failure flag are unchanged. |
| `Http.RequestBuilder.AddHeader` | src/sinks/elasticsearch.rs:160-170 | An accepted header is appended after those before it. The first rejected one marks the builder failed. Once failed, the builder keeps its headers as they were. |
| `Http.RequestBuilder.Body` | src/sinks/elasticsearch.rs:173 | The builder yields its method, URI, headers and body exactly when no header was rejected. |

## Left out

- Elasticsearch.Es, Elasticsearch.ResolveSettings, Elasticsearch.ResolveFailures: they resolve the corrected `/_bulk[?query]` URI, not the `/_bulk&query` one the source builds (see Findings). The two agree exactly when no query pair is configured (`BulkPathQueryMatchesAsWritten`). With a query, the source parses a different URI, and its panic decision and the request URI follow that one.
- The `warn!` logged when an event is dropped because its index template does not render (lines 239-242): logging is not modelled, only the drop.
- The tower service stack (concurrency limit, rate limit, retry policy, timeout) and `BatchServiceSink` batching and acknowledgement: the model resolves their parameters in `Es`, but not their run-time behaviour.
- `SinkConfig::build` and `input_type` (lines 67-80): glue that calls `es` and `healthcheck`.
- Gzip compression of the batch buffer: only whether it is on (`BufferCompressed`) is modelled.
- TLS set-up in the healthcheck ("TLS initialization failed") and all network I/O. The client is a function from request to response.
- Obtaining AWS credentials, and AWS signature version 4. The fetch outcome is a parameter of `Es`. The signer is a function that gets the prepared `SigningRequest` and returns the header list.
- Template rendering (`crate::template`), `LogEvent::unflatten`, `Uri` parsing, the `RegionOrEndpoint` conversion and `HeaderName`/`HeaderValue` syntax: each is a function parameter.
- `HashMap` iteration order for `headers` and `query`: these are modelled as the sequence that iteration yields, whatever that order is.
- Event values: floats and maps are not modelled. Byte values are taken to be valid UTF-8, so `to_string_lossy` does no replacement.
- JSON objects are kept in `serde_json`'s default sorted-map order; the `preserve_order` feature is not modelled.
- Elasticsearch.HealthVerdictIff, Elasticsearch.Healthcheck: the failure message carries the numeric status only. `http`'s `StatusCode` display also appends the reason phrase, for example `404 Not Found`.
- The `http` builder's case normalization of header names is not modelled; headers are compared as written.
- `usize` is taken to be 64 bits wide; integers are otherwise unbounded.

## Findings

| source | as written | input that shows it | evidently intended | confidence | as-written member | corrected member |
|---|---|---|---|---|---|---|
| src/sinks/elasticsearch.rs:122-128 | `Serializer::new("/_bulk")` begins serializing at offset 0. The first `append_pair` therefore writes `&`, and no `?` is ever written. | host `http://h:9200` with query `pipeline = p` gives the URI `http://h:9200/_bulk&pipeline=p` | `/_bulk?pipeline=p`, so the server receives the query | medium, not executed | `Elasticsearch.AppendQueryAsWritten` (with `QueryAsWrittenIsLost`, `QueryAsWrittenOnePair`) | `Elasticsearch.AppendQuery` (with `BulkPathQueryReadsBack`), used by `Elasticsearch.Es` |
