/** What the two form pages share: the choice between creating and
    updating a record, and the view a form page renders. */
module FormState {
  import opened JsRuntime
  import opened Api

  /** What a form page renders: the loading text for the record being
      edited, the loading text for the selector's options, a full-page
      error, or the editor with the error banners above it. */
  datatype FormView<D> =
    | LoadingRecord
    | LoadingOptions
    | ErrorPage(message: string)
    | Editor(draft: D, banners: seq<string>)

  /** The URL of one record of `collection` (e.g. "/orders"): the
      collection's URL, a slash, and a last segment that reads back as `id`. */
  function RecordUrl(collection: string, id: int): (r: string)
    ensures var base := ApiBaseUrl + collection + "/";
      |r| > |base| && r[..|base|] == base && ParseInt(r[|base|..]) == Int(id)
  {
    var r := ApiBaseUrl + collection + "/" + IntToString(id);
    assert r[|ApiBaseUrl + collection + "/"|..] == IntToString(id);
    ParseIntRoundTrip(id);
    r
  }

  /** The save request of a form: PATCH to the edited record in edit mode,
      POST to the collection otherwise; the body is the payload as given. */
  function SaveRequest<B>(collection: string, editId: Option<int>, payload: B): (r: Request<B>)
    ensures r.body == Some(payload)
    ensures r.verb == PATCH <==> editId.Some?
    ensures r.verb == POST <==> editId.None?
  {
    match editId
    case Some(id) => Request(PATCH, RecordUrl(collection, id), Some(payload))
    case None => Request(POST, ApiBaseUrl + collection, Some(payload))
  }

  /** An update goes to the URL of exactly the record the route names: the
      last path segment reads back as the id parsed from the route, and a
      create goes to the collection itself. */
  lemma SaveTargetsRoute<B>(collection: string, paramId: Option<string>, payload: B)
    ensures var r := SaveRequest(collection, EditId(paramId), payload);
      var base := ApiBaseUrl + collection + "/";
      && (EditId(paramId).None? ==> r.url == ApiBaseUrl + collection)
      && (EditId(paramId).Some? ==>
            |r.url| > |base| && r.url[..|base|] == base &&
            ParseInt(r.url[|base|..]) == ParseInt(paramId.value))
  {
    var editId := EditId(paramId);
    if editId.Some? {
      var r := SaveRequest(collection, editId, payload);
      var base := ApiBaseUrl + collection + "/";
      assert r.url == base + IntToString(editId.value);
      assert r.url[|base|..] == IntToString(editId.value);
      ParseIntRoundTrip(editId.value);
    }
  }
}
