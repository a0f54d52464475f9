/**
 * The request values of the `http` crate that the sink builds, and the
 * request `Builder` it drives step by step.
 */
module Http {

  import opened Wrappers
  import opened Bytes

  datatype Method = Get | Post

  /**
   * A parsed `http::Uri`: its text, its host and its path. Parsing belongs
   * to the `http` crate; the model receives it as a function.
   */
  datatype Uri = Uri(text: Bytes, host: Option<Bytes>, path: Bytes)

  type UriParser = Bytes -> Option<Uri>

  /** A header name and its value, in the order `builder.header` was called. */
  type Header = (Bytes, Bytes)

  /**
   * Which names and values the `http` crate accepts (`HeaderName` and
   * `HeaderValue` parsing); the crate's tables are not part of this model.
   */
  datatype HeaderSyntax = HeaderSyntax(name: Bytes -> bool, value: Bytes -> bool)

  predicate Accepts(syntax: HeaderSyntax, h: Header) {
    syntax.name(h.0) && syntax.value(h.1)
  }

  predicate AcceptsAll(syntax: HeaderSyntax, hs: seq<Header>) {
    forall k | 0 <= k < |hs| :: Accepts(syntax, hs[k])
  }

  datatype Request = Request(verb: Method, uri: Uri, headers: seq<Header>, body: Bytes)

  function DefaultUri(): Uri {
    Uri(Ascii("/"), None, Ascii("/"))
  }

  /**
   * `http::request::Builder`. The first header the crate rejects records an
   * error; from then on every call leaves the builder as it is, and `body`
   * returns that error.
   */
  class RequestBuilder {
    var verb: Method
    var uri: Uri
    var headers: seq<Header>
    var failed: bool

    /** `Request::builder()`: a GET of `/` with no headers. */
    constructor ()
      ensures verb == Get && uri == DefaultUri() && headers == [] && !failed
    {
      verb := Get;
      uri := DefaultUri();
      headers := [];
      failed := false;
    }

    method SetMethod(m: Method)
      modifies this
      ensures verb == (if failed then old(verb) else m)
      ensures uri == old(uri) && headers == old(headers) && failed == old(failed)
    {
      if !failed {
        verb := m;
      }
    }

    method SetUri(u: Uri)
      modifies this
      ensures uri == (if failed then old(uri) else u)
      ensures verb == old(verb) && headers == old(headers) && failed == old(failed)
    {
      if !failed {
        uri := u;
      }
    }

    /** `builder.header(name, value)`: appends, as `HeaderMap::append` does. */
    method AddHeader(h: Header, syntax: HeaderSyntax)
      modifies this
      ensures failed == (old(failed) || !Accepts(syntax, h))
      ensures headers == if failed then old(headers) else old(headers) + [h]
      ensures verb == old(verb) && uri == old(uri)
    {
      if !failed {
        if Accepts(syntax, h) {
          headers := headers + [h];
        } else {
          failed := true;
        }
      }
    }

    /** `builder.body(body)`: the request, or the recorded error. */
    method Body(body: Bytes) returns (r: Option<Request>)
      ensures r.Some? <==> !failed
      ensures r.Some? ==> r.value == Request(verb, uri, headers, body)
    {
      if failed {
        r := None;
      } else {
        r := Some(Request(verb, uri, headers, body));
      }
    }
  }
}
