/**
 * The base tags every metric of a request carries: their keys, where each value comes
 * from, and when the request counts as failed.
 */
module BaseTagSet {
  import opened Wrappers
  import opened AwsSdk
  import opened Aws2
  import opened MetricNames

  /** The tag keys a list of tag fields writes. */
  function TagKeys(tags: seq<TagField>): set<string> {
    set i | 0 <= i < |tags| :: tags[i].GetName()
  }

  /** No two tag fields of the list write the same key. */
  predicate NamesDistinct(tags: seq<TagField>) {
    forall i, j | 0 <= i < |tags| && 0 <= j < |tags| && i != j :: tags[i].GetName() != tags[j].GetName()
  }

  lemma NamesDistinctInit(tags: seq<TagField>)
    requires tags != [] && NamesDistinct(tags)
    ensures NamesDistinct(tags[..|tags| - 1])
    ensures forall i | 0 <= i < |tags| - 1 :: tags[i].GetName() != tags[|tags| - 1].GetName()
  {
    var init := tags[..|tags| - 1];
    forall i, j | 0 <= i < |init| && 0 <= j < |init| && i != j
      ensures init[i].GetName() != init[j].GetName()
    {
      assert init[i] == tags[i] && init[j] == tags[j];
    }
  }

  lemma TagKeysSnoc(tags: seq<TagField>)
    requires tags != []
    ensures TagKeys(tags) == TagKeys(tags[..|tags| - 1]) + {tags[|tags| - 1].GetName()}
  {
    var init := tags[..|tags| - 1];
    forall k | k in TagKeys(tags) ensures k in TagKeys(init) + {tags[|tags| - 1].GetName()} {
      var i :| 0 <= i < |tags| && tags[i].GetName() == k;
      if i < |init| {
        assert init[i] == tags[i];
      }
    }
    forall k | k in TagKeys(init) ensures k in TagKeys(tags) {
      var i :| 0 <= i < |init| && init[i].GetName() == k;
      assert tags[i] == init[i];
    }
  }

  /**
   * Putting tag fields into a map adds exactly their keys and leaves every other entry
   * alone.
   */
  lemma {:induction false} PutTagsKeys(m: map<string, string>, tags: seq<TagField>,
                                       metrics: AwsRequestMetrics, parseUri: string -> UriParse)
    ensures PutTags(m, tags, metrics, parseUri).Keys == m.Keys + TagKeys(tags)
    ensures forall k | k in m && k !in TagKeys(tags) :: PutTags(m, tags, metrics, parseUri)[k] == m[k]
    decreases |tags|
  {
    if tags != [] {
      TagKeysSnoc(tags);
      PutTagsKeys(m, tags[..|tags| - 1], metrics, parseUri);
    }
  }

  /**
   * When no two fields share a key, putting tag fields gives each field's key that
   * field's value, or UNKNOWN when it has none.
   */
  lemma {:induction false} PutTagsValues(m: map<string, string>, tags: seq<TagField>,
                                         metrics: AwsRequestMetrics, parseUri: string -> UriParse)
    requires NamesDistinct(tags)
    ensures forall i | 0 <= i < |tags| ::
      tags[i].GetName() in PutTags(m, tags, metrics, parseUri) &&
      PutTags(m, tags, metrics, parseUri)[tags[i].GetName()] == tags[i].GetValue(metrics, parseUri).GetOr(UNKNOWN)
    decreases |tags|
  {
    if tags != [] {
      var init := tags[..|tags| - 1];
      NamesDistinctInit(tags);
      PutTagsValues(m, init, metrics, parseUri);
      forall i | 0 <= i < |init|
        ensures PutTags(m, tags, metrics, parseUri)[tags[i].GetName()] == tags[i].GetValue(metrics, parseUri).GetOr(UNKNOWN)
      {
        assert init[i] == tags[i];
      }
    }
  }

  /** The value at index 0 of a property list exists and is not null. */
  predicate HeadPresent(metrics: AwsRequestMetrics, field: string) {
    var p := GetProperty(metrics, field);
    p.Some? && |p.value| > 0 && p.value[0].Some?
  }

  /** The value at index 0 of a property list, when it is there. */
  function Head(metrics: AwsRequestMetrics, field: string): (v: Value)
    requires HeadPresent(metrics, field)
    ensures Some(v) == metrics.properties[field][0]
  {
    GetProperty(metrics, field).value[0].value
  }

  lemma SuccessTagKeys()
    ensures TagKeys(TAGS) == {"serviceEndpoint", "serviceName", "statusCode"}
    ensures NamesDistinct(TAGS)
  {
    SuccessTagNames();
  }

  lemma ErrorTagKeys()
    ensures TagKeys(ERRORS) == {"AWSErrorCode", "exception"}
    ensures NamesDistinct(ERRORS)
  {
    ErrorTagNames();
  }

  /**
   * isError: a request failed exactly when its AWSErrorCode or its Exception property
   * has a non-null value at index 0.
   */
  lemma HasErrorIff(metrics: AwsRequestMetrics, parseUri: string -> UriParse)
    ensures HasError(metrics, parseUri) <==> HeadPresent(metrics, "AWSErrorCode") || HeadPresent(metrics, "Exception")
  {
    assert ERRORS[0].GetValue(metrics, parseUri).Some? <==> HeadPresent(metrics, "AWSErrorCode");
    assert ERRORS[1].GetValue(metrics, parseUri).Some? <==> HeadPresent(metrics, "Exception");
  }

  /** The keys getBaseTags writes besides the tag fields' are none of the tag fields' keys. */
  lemma FixedKeysApart()
    ensures "requestType" !in TagKeys(TAGS) + TagKeys(ERRORS)
    ensures "error" !in TagKeys(TAGS) + TagKeys(ERRORS)
    ensures TagKeys(TAGS) !! TagKeys(ERRORS)
  {
    SuccessTagKeys();
    ErrorTagKeys();
  }

  /** The value getBaseTags gives a tag field: its value, or UNKNOWN. */
  function TagValue(metrics: AwsRequestMetrics, parseUri: string -> UriParse, field: string,
                    extractor: Extractor): (r: string)
    ensures !HeadPresent(metrics, field) ==> r == UNKNOWN
    ensures HeadPresent(metrics, field) && extractor == ToStringOf ==> r == Head(metrics, field).text
    ensures HeadPresent(metrics, field) && extractor == SimpleNameOf ==> r == Head(metrics, field).simpleName
    ensures HeadPresent(metrics, field) && extractor == HostOf ==>
      r == GetHost(Head(metrics, field), parseUri).GetOr(UNKNOWN)
  {
    TagField(field, extractor).GetValue(metrics, parseUri).GetOr(UNKNOWN)
  }

  /**
   * getBaseTags writes serviceEndpoint, serviceName, statusCode, requestType and error,
   * and also AWSErrorCode and exception exactly when the request failed.
   */
  lemma BaseTagKeys(request: Request, parseUri: string -> UriParse)
    ensures BaseTags(request, parseUri).Keys ==
      {"serviceEndpoint", "serviceName", "statusCode", "requestType", "error"} +
      (if HasError(request.metrics, parseUri) then {"AWSErrorCode", "exception"} else {})
  {
    var metrics := request.metrics;
    SuccessTagKeys();
    ErrorTagKeys();
    PutTagsKeys(map[], TAGS, metrics, parseUri);
    var success := PutTags(map[], TAGS, metrics, parseUri)["requestType" := request.originalRequestType];
    PutTagsKeys(success, ERRORS, metrics, parseUri);
  }

  /**
   * requestType is the simple class name of the original request, and error says
   * whether the request failed.
   */
  lemma BaseTagRequest(request: Request, parseUri: string -> UriParse)
    ensures "requestType" in BaseTags(request, parseUri) && "error" in BaseTags(request, parseUri)
    ensures BaseTags(request, parseUri)["requestType"] == request.originalRequestType
    ensures BaseTags(request, parseUri)["error"] == if HasError(request.metrics, parseUri) then "true" else "false"
  {
    var metrics := request.metrics;
    FixedKeysApart();
    var success := PutTags(map[], TAGS, metrics, parseUri)["requestType" := request.originalRequestType];
    PutTagsKeys(success, ERRORS, metrics, parseUri);
  }

  /**
   * The endpoint tag is the host of the ServiceEndpoint property (UNKNOWN when that is
   * missing, has no host or does not parse); serviceName and statusCode are the string
   * forms of their properties, or UNKNOWN.
   */
  lemma SuccessTagValues(request: Request, parseUri: string -> UriParse)
    ensures "serviceEndpoint" in BaseTags(request, parseUri) && "serviceName" in BaseTags(request, parseUri) &&
            "statusCode" in BaseTags(request, parseUri)
    ensures BaseTags(request, parseUri)["serviceEndpoint"] == TagValue(request.metrics, parseUri, "ServiceEndpoint", HostOf)
    ensures BaseTags(request, parseUri)["serviceName"] == TagValue(request.metrics, parseUri, "ServiceName", ToStringOf)
    ensures BaseTags(request, parseUri)["statusCode"] == TagValue(request.metrics, parseUri, "StatusCode", ToStringOf)
  {
    var metrics := request.metrics;
    SuccessTagKeys();
    FixedKeysApart();
    PutTagsValues(map[], TAGS, metrics, parseUri);
    var success := PutTags(map[], TAGS, metrics, parseUri)["requestType" := request.originalRequestType];
    PutTagsKeys(success, ERRORS, metrics, parseUri);
    SuccessTagNames();
  }

  /**
   * On a failed request, AWSErrorCode is the string form of the error code and exception
   * the simple class name of the exception, each UNKNOWN when absent.
   */
  lemma ErrorTagValues(request: Request, parseUri: string -> UriParse)
    requires HasError(request.metrics, parseUri)
    ensures "AWSErrorCode" in BaseTags(request, parseUri) && "exception" in BaseTags(request, parseUri)
    ensures BaseTags(request, parseUri)["AWSErrorCode"] == TagValue(request.metrics, parseUri, "AWSErrorCode", ToStringOf)
    ensures BaseTags(request, parseUri)["exception"] == TagValue(request.metrics, parseUri, "Exception", SimpleNameOf)
  {
    var metrics := request.metrics;
    ErrorTagKeys();
    FixedKeysApart();
    var success := PutTags(map[], TAGS, metrics, parseUri)["requestType" := request.originalRequestType];
    PutTagsValues(success, ERRORS, metrics, parseUri);
    ErrorTagNames();
  }
}
