/** The proxy to the code list service: the guards of its two GET handlers and the request URLs
    they build (the container list, and the resources of one container with the query
    parameters passed on). The fetch itself is not modelled: a handler's result is the URL it
    would fetch. */
module CodelistProxyResource {
  import opened Wrappers
  import opened Strings
  import opened Configuration
  import opened IntegrationResource
  import Seqs

  /** Why a handler refuses: UnauthorizedException, or a YtiCommentsException with its model. */
  datatype Failure = Unauthorized | Rejected(error: ErrorModel)

  /** The query parameters of GET /resources after JAX-RS has applied its defaults; null is
      None. The `uri` parameter is accepted but never read, so it is not here. */
  datatype ResourcesQuery = ResourcesQuery(
    container: Option<string>,
    language: string,
    pageSize: Option<int>,
    from: Option<int>,
    status: Option<string>,
    after: Option<string>,
    searchTerm: Option<string>,
    includeMeta: bool)

  /** The only names paramsMap can hold. */
  const PARAM_NAMES: set<string> := {"language", "pageSize", "from", "status", "after", "searchTerm", "includeMeta"}

  /** The parameter names are distinct strings, the first chars being enough to part most. */
  lemma ParamNamesDistinct()
    ensures "language" != "pageSize" && "language" != "from" && "language" != "status"
    ensures "language" != "after" && "language" != "searchTerm" && "language" != "includeMeta"
    ensures "pageSize" != "from" && "pageSize" != "status" && "pageSize" != "after"
    ensures "pageSize" != "searchTerm" && "pageSize" != "includeMeta"
    ensures "from" != "status" && "from" != "after" && "from" != "searchTerm" && "from" != "includeMeta"
    ensures "status" != "after" && "status" != "searchTerm" && "status" != "includeMeta"
    ensures "after" != "searchTerm" && "after" != "includeMeta"
    ensures "searchTerm" != "includeMeta"
  {
    assert "status"[1] != "searchTerm"[1];
  }

  /** `params` holds what getResources puts for query `q`: always language and includeMeta
      ("true" or "false"), pageSize, from and after when given, status and searchTerm when
      given and not empty, and nothing else. */
  predicate DescribesQuery(params: map<string, string>, q: ResourcesQuery) {
    && params.Keys <= PARAM_NAMES
    && "language" in params && params["language"] == q.language
    && "includeMeta" in params && params["includeMeta"] == (if q.includeMeta then "true" else "false")
    && ("pageSize" in params <==> q.pageSize.Some?)
    && (q.pageSize.Some? ==> params["pageSize"] == IntToString(q.pageSize.value))
    && ("from" in params <==> q.from.Some?)
    && (q.from.Some? ==> params["from"] == IntToString(q.from.value))
    && ("status" in params <==> !IsEmpty(q.status))
    && (!IsEmpty(q.status) ==> params["status"] == q.status.value)
    && ("after" in params <==> q.after.Some?)
    && (q.after.Some? ==> params["after"] == q.after.value)
    && ("searchTerm" in params <==> !IsEmpty(q.searchTerm))
    && (!IsEmpty(q.searchTerm) ==> params["searchTerm"] == q.searchTerm.value)
  }

  /** A query determines its parameter map. */
  lemma DescribesQueryUnique(p1: map<string, string>, p2: map<string, string>, q: ResourcesQuery)
    requires DescribesQuery(p1, q) && DescribesQuery(p2, q)
    ensures p1 == p2
  {
    forall k | k in p1 ensures k in p2 && p1[k] == p2[k] {
      assert k in PARAM_NAMES;
    }
    forall k | k in p2 ensures k in p1 {
      assert k in PARAM_NAMES;
    }
  }

  /** `order` lists every key of `keys` once: a HashMap's iteration order. */
  predicate IsEnumeration(order: seq<string>, keys: set<string>) {
    && (forall k :: k in keys ==> k in order)
    && (forall i :: 0 <= i < |order| ==> order[i] in keys)
    && (forall i, j :: 0 <= i < j < |order| ==> order[i] != order[j])
  }

  /** What the forEach appends for one entry. */
  function Piece(key: string, value: string): string {
    "&" + key + "=" + value
  }

  /** The text the forEach builds when it visits the keys in `order`. */
  function ParamsText(params: map<string, string>, order: seq<string>): string
    requires forall k :: k in order ==> k in params
  {
    if order == [] then ""
    else
      var last := order[|order| - 1];
      ParamsText(params, order[..|order| - 1]) + Piece(last, params[last])
  }

  /** The text of a concatenated order is the concatenation of the texts. */
  lemma {:induction false} ParamsTextAppend(params: map<string, string>, a: seq<string>, b: seq<string>)
    requires forall k :: k in a + b ==> k in params
    ensures ParamsText(params, a + b) == ParamsText(params, a) + ParamsText(params, b)
  {
    if b == [] {
      assert a + b == a;
    } else {
      var b' := b[..|b| - 1];
      var last := b[|b| - 1];
      assert (a + b)[..|a + b| - 1] == a + b';
      ParamsTextAppend(params, a, b');
      Seqs.Assoc(ParamsText(params, a), ParamsText(params, b'), Piece(last, params[last]));
    }
  }

  /** Each visited entry contributes its piece at its place: the text is the pieces of the
      keys before it, then "&key=value", then the pieces of the keys after it. */
  lemma ParamsTextAt(params: map<string, string>, order: seq<string>, i: nat)
    requires forall k :: k in order ==> k in params
    requires i < |order|
    ensures ParamsText(params, order)
         == ParamsText(params, order[..i]) + Piece(order[i], params[order[i]]) + ParamsText(params, order[i + 1..])
  {
    assert order == order[..i + 1] + order[i + 1..];
    ParamsTextAppend(params, order[..i + 1], order[i + 1..]);
    assert order[..i + 1][..i] == order[..i];
  }

  lemma ParamsTextSnoc(params: map<string, string>, order: seq<string>, key: string, text: string)
    requires forall k :: k in order ==> k in params
    requires key in params
    requires text == ParamsText(params, order)
    ensures forall k :: k in order + [key] ==> k in params
    ensures text + Piece(key, params[key]) == ParamsText(params, order + [key])
  {
    assert (order + [key])[..|order|] == order;
  }

  class CodelistProxyResource {
    /** codelistProperties.getUrl(). */
    const codelistUrl: string
    const constants: ApiConstants
    /** ErrorConstants.ERR_MSG_USER_406; its text is not part of this model. */
    const errMsgUser406: string

    constructor(codelistUrl: string, constants: ApiConstants, errMsgUser406: string)
      ensures this.codelistUrl == codelistUrl && this.constants == constants && this.errMsgUser406 == errMsgUser406
    {
      this.codelistUrl := codelistUrl;
      this.constants := constants;
      this.errMsgUser406 := errMsgUser406;
    }

    /** The part both request URLs share: up to the integration API. */
    function IntegrationApiUrl(): string {
      codelistUrl + "/" + constants.codelistApiContextPath + "/" + constants.codelistApiPath + "/"
        + constants.codelistApiVersion + "/" + constants.apiIntegration
    }

    /** The integration API's URL starts with the configured code list URL and "/". */
    lemma IntegrationApiUnderCodelist()
      ensures codelistUrl + "/" <= IntegrationApiUrl()
    {
      var front := codelistUrl + "/";
      var u1 := front + constants.codelistApiContextPath;
      var u2 := u1 + "/" + constants.codelistApiPath;
      var u3 := u2 + "/" + constants.codelistApiVersion;
      Seqs.PrefixOfAppend(front, front, constants.codelistApiContextPath);
      Seqs.PrefixOfAppend(front, u1, "/");
      Seqs.PrefixOfAppend(front, u1 + "/", constants.codelistApiPath);
      Seqs.PrefixOfAppend(front, u2, "/");
      Seqs.PrefixOfAppend(front, u2 + "/", constants.codelistApiVersion);
      Seqs.PrefixOfAppend(front, u3, "/");
      Seqs.PrefixOfAppend(front, u3 + "/", constants.apiIntegration);
    }

    /** createCodelistContainerApiUrl. */
    function ContainerApiUrl(): (url: string)
      ensures codelistUrl + "/" <= url
      ensures |constants.apiContainers| <= |url| && url[|url| - |constants.apiContainers|..] == constants.apiContainers
    {
      var front := codelistUrl + "/";
      IntegrationApiUnderCodelist();
      Seqs.PrefixOfAppend(front, IntegrationApiUrl(), "/");
      Seqs.PrefixOfAppend(front, IntegrationApiUrl() + "/", constants.apiContainers);
      Seqs.SuffixOfAppend(IntegrationApiUrl() + "/", constants.apiContainers);
      IntegrationApiUrl() + "/" + constants.apiContainers
    }

    /** The resources URL before the parameters of the map. */
    function ResourcesApiUrl(container: string): (url: string)
      ensures codelistUrl + "/" <= url
      ensures |container| <= |url| && url[|url| - |container|..] == container
    {
      var front := codelistUrl + "/";
      IntegrationApiUnderCodelist();
      Seqs.PrefixOfAppend(front, IntegrationApiUrl(), "/");
      Seqs.PrefixOfAppend(front, IntegrationApiUrl() + "/", constants.apiResources);
      Seqs.PrefixOfAppend(front, IntegrationApiUrl() + "/" + constants.apiResources, "/?uri=");
      var b := IntegrationApiUrl() + "/" + constants.apiResources + "/?uri=";
      Seqs.PrefixOfAppend(front, b, container);
      Seqs.SuffixOfAppend(b, container);
      IntegrationApiUrl() + "/" + constants.apiResources + "/?uri=" + container
    }

    /** The containers URL is the configured URL and the five segments joined with "/". */
    lemma ContainerApiUrlIsJoin()
      ensures ContainerApiUrl() == Join("/", [codelistUrl, constants.codelistApiContextPath, constants.codelistApiPath,
        constants.codelistApiVersion, constants.apiIntegration, constants.apiContainers])
    {
      var p1 := [codelistUrl];
      var p2 := p1 + [constants.codelistApiContextPath];
      var p3 := p2 + [constants.codelistApiPath];
      var p4 := p3 + [constants.codelistApiVersion];
      var p5 := p4 + [constants.apiIntegration];
      var p6 := p5 + [constants.apiContainers];
      JoinSnoc("/", p1, constants.codelistApiContextPath);
      JoinSnoc("/", p2, constants.codelistApiPath);
      JoinSnoc("/", p3, constants.codelistApiVersion);
      JoinSnoc("/", p4, constants.apiIntegration);
      JoinSnoc("/", p5, constants.apiContainers);
      assert p6 == [codelistUrl, constants.codelistApiContextPath, constants.codelistApiPath,
        constants.codelistApiVersion, constants.apiIntegration, constants.apiContainers];
    }

    /** The two request URLs agree up to the integration API and then part: one names the
        containers, the other the resources and the container. */
    lemma RequestUrlsShareIntegrationApi(container: string)
      ensures IntegrationApiUrl() + "/" <= ContainerApiUrl()
      ensures IntegrationApiUrl() + "/" <= ResourcesApiUrl(container)
      ensures var base := ResourcesApiUrl(container);
        var tail := "/?uri=" + container;
        |tail| <= |base| && base[|base| - |tail|..] == tail
    {
      var front := IntegrationApiUrl() + "/";
      Seqs.PrefixOfAppend(front, front, constants.apiContainers);
      Seqs.PrefixOfAppend(front, front, constants.apiResources);
      Seqs.PrefixOfAppend(front, front + constants.apiResources, "/?uri=");
      Seqs.PrefixOfAppend(front, front + constants.apiResources + "/?uri=", container);
      Seqs.Assoc(front + constants.apiResources, "/?uri=", container);
      Seqs.SuffixOfAppend(front + constants.apiResources, "/?uri=" + container);
    }

    /** getContainers: anonymous users are refused before anything is built. */
    method GetContainers(anonymous: bool) returns (r: Result<string, Failure>)
      ensures anonymous ==> r == Err(Unauthorized)
      ensures !anonymous ==> r == Ok(ContainerApiUrl())
    {
      if anonymous {
        return Err(Unauthorized);
      }
      var requestUrl := ContainerApiUrl();
      return Ok(requestUrl);
    }

    /** The conditional puts of getResources. */
    method BuildParamsMap(q: ResourcesQuery) returns (params: map<string, string>)
      ensures DescribesQuery(params, q)
    {
      ParamNamesDistinct();
      params := map[];
      params := params["language" := q.language];
      if q.pageSize.Some? {
        params := params["pageSize" := IntToString(q.pageSize.value)];
      }
      if q.from.Some? {
        params := params["from" := IntToString(q.from.value)];
      }
      if q.status.Some? && q.status.value != "" {
        params := params["status" := q.status.value];
      }
      if q.after.Some? {
        params := params["after" := q.after.value];
      }
      if q.searchTerm.Some? && q.searchTerm.value != "" {
        params := params["searchTerm" := q.searchTerm.value];
      }
      params := params["includeMeta" := if q.includeMeta then "true" else "false"];
    }

    /** createCodelistResourcesApiUrl: the base URL, then "&key=value" for every entry of the
        map in the order the map yields them, which is returned as `order`. */
    method CreateCodelistResourcesApiUrl(container: string, params: map<string, string>)
      returns (url: string, order: seq<string>)
      ensures IsEnumeration(order, params.Keys)
      ensures url == ResourcesApiUrl(container) + ParamsText(params, order)
    {
      var theUrl := ResourcesApiUrl(container);
      var paramsBuilder := "";
      var remaining := params.Keys;
      order := [];
      while remaining != {}
        invariant remaining <= params.Keys
        invariant forall k :: k in params.Keys <==> k in order || k in remaining
        invariant forall k :: k in order ==> k !in remaining
        invariant forall i, j :: 0 <= i < j < |order| ==> order[i] != order[j]
        invariant forall k :: k in order ==> k in params
        invariant paramsBuilder == ParamsText(params, order)
        decreases remaining
      {
        var key :| key in remaining;
        ParamsTextSnoc(params, order, key, paramsBuilder);
        paramsBuilder := paramsBuilder + Piece(key, params[key]);
        order := order + [key];
        remaining := remaining - {key};
      }
      url := theUrl + paramsBuilder;
    }

    /** getResources: anonymous users are refused first, then a null or empty container with
        406 and ERR_MSG_USER_406; otherwise the URL is the resources URL followed by the
        parameters of the query, in the order returned. */
    method GetResources(anonymous: bool, q: ResourcesQuery)
      returns (r: Result<string, Failure>, params: map<string, string>, order: seq<string>)
      ensures anonymous ==> r == Err(Unauthorized)
      ensures !anonymous && IsEmpty(q.container) ==> r == Err(Rejected(ErrorModel(NOT_ACCEPTABLE, errMsgUser406)))
      ensures !anonymous && !IsEmpty(q.container) ==>
        && DescribesQuery(params, q)
        && IsEnumeration(order, params.Keys)
        && r == Ok(ResourcesApiUrl(q.container.value) + ParamsText(params, order))
    {
      params, order := map[], [];
      if anonymous {
        return Err(Unauthorized), params, order;
      }
      if q.container.Some? && q.container.value != "" {
        params := BuildParamsMap(q);
        var url;
        url, order := CreateCodelistResourcesApiUrl(q.container.value, params);
        return Ok(url), params, order;
      } else {
        return Err(Rejected(ErrorModel(NOT_ACCEPTABLE, errMsgUser406))), params, order;
      }
    }
  }
}
