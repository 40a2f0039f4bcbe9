/**
 * `HybridWebViewProxyEventArgs`: what a proxy handler receives, and the
 * three response fields it may set. A handler that leaves
 * `ResponseStream` null has not handled the request.
 */
module ProxyEventArgs {
  import opened Wrappers
  import opened Text
  import opened QueryStringHelper

  datatype ProxyEventArgs = ProxyEventArgs(
    url: string,
    queryParams: map<string, string>,
    responseContentType: Option<string>,
    responseStream: Option<Bytes>,
    customResponseHeaders: Option<map<string, string>>)
  {
    /** A handler answered the request. */
    predicate Handled() {
      responseStream.Some?
    }
  }

  const DefaultResponseContentType: string := "text/plain"

  /**
   * The one-argument constructor: the full URL (query included), its parsed
   * query, content type "text/plain", and no response yet. A query that does
   * not parse makes the constructor throw.
   */
  function Create(fullUrl: string): (r: Result<ProxyEventArgs, QueryError>)
    ensures r.Success? <==> GetKeyValuePairs(Some(fullUrl)).Success?
    ensures r.Failure? ==> r.error == GetKeyValuePairs(Some(fullUrl)).error
    ensures r.Success? ==> && r.value.url == fullUrl
                           && r.value.queryParams == GetKeyValuePairs(Some(fullUrl)).value
                           && r.value.responseContentType == Some("text/plain")
                           && !r.value.Handled()
                           && r.value.customResponseHeaders.None?
  {
    var query :- GetKeyValuePairs(Some(fullUrl));
    Success(ProxyEventArgs(fullUrl, query, Some(DefaultResponseContentType), None, None))
  }

  /** The two-argument constructor: as `Create`, but with the given content type. */
  function CreateWithContentType(fullUrl: string, contentType: string): (r: Result<ProxyEventArgs, QueryError>)
    ensures r.Success? <==> GetKeyValuePairs(Some(fullUrl)).Success?
    ensures r.Failure? ==> r.error == GetKeyValuePairs(Some(fullUrl)).error
    ensures r.Success? ==> && r.value.url == fullUrl
                           && r.value.queryParams == GetKeyValuePairs(Some(fullUrl)).value
                           && r.value.responseContentType == Some(contentType)
                           && !r.value.Handled()
                           && r.value.customResponseHeaders.None?
  {
    var query :- GetKeyValuePairs(Some(fullUrl));
    Success(ProxyEventArgs(fullUrl, query, Some(contentType), None, None))
  }
}
