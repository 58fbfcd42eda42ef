/**
 * The header pass-through of `index`: every catalog response header whose
 * name starts with `cmr-` is copied onto the broker's response.
 */
module ResponseHeaders {

  type Headers = map<string, string>

  const CmrPrefix: string := "cmr-"

  /** Ruby's `start_with?`, case-sensitively. */
  predicate StartsWith(s: string, prefix: string)
  {
    prefix <= s
  }

  /**
   * The `each` loop over the catalog's headers: afterwards the response has
   * its own headers plus every `cmr-` catalog header, the catalog's value
   * winning on a shared name; no other catalog header is copied.
   */
  method CopyCmrHeaders(response: Headers, catalog: Headers) returns (r: Headers)
    ensures forall k :: k in r <==> k in response || (k in catalog && StartsWith(k, CmrPrefix))
    ensures forall k :: k in catalog && StartsWith(k, CmrPrefix) ==> r[k] == catalog[k]
    ensures forall k :: k in response && !(k in catalog && StartsWith(k, CmrPrefix)) ==> r[k] == response[k]
  {
    r := response;
    var todo := catalog.Keys;
    while todo != {}
      invariant todo <= catalog.Keys
      invariant forall k :: k in r <==> k in response || (k in catalog && k !in todo && StartsWith(k, CmrPrefix))
      invariant forall k :: k in catalog && k !in todo && StartsWith(k, CmrPrefix) ==> r[k] == catalog[k]
      invariant forall k :: k in response && !(k in catalog && k !in todo && StartsWith(k, CmrPrefix)) ==> r[k] == response[k]
      decreases todo
    {
      var key :| key in todo;
      if StartsWith(key, CmrPrefix) {
        r := r[key := catalog[key]];
      }
      todo := todo - {key};
    }
  }
}
