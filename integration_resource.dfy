/** The identifier filters of the integration API: container and resource ids given as a
    comma-separated query parameter or as a list in a request body, each parsed to a UUID;
    one malformed id rejects the request with 406 NOT_ACCEPTABLE. */
module IntegrationResource {
  import opened Wrappers
  import opened Domain
  import opened Strings
  import Seqs

  /** HttpStatus.NOT_ACCEPTABLE. */
  const NOT_ACCEPTABLE: int := 406

  /** The ErrorModel a YtiCommentsException carries. */
  datatype ErrorModel = ErrorModel(httpStatusCode: int, message: string)

  /** UUID.fromString: the id a string denotes, or None where it throws IllegalArgumentException. */
  type UuidParser = string -> Option<Uuid>

  /** The body of a POST request (IntegrationResourceRequestDTO), as far as the filters use it. */
  datatype IntegrationRequest = IntegrationRequest(container: Option<string>, uri: Option<seq<string>>)

  function NotMappable(uuidString: string): ErrorModel {
    ErrorModel(NOT_ACCEPTABLE, "String not mappable to UUID: " + uuidString)
  }

  /** parseUuidFromString. */
  function ParseUuidFromString(parse: UuidParser, uuidString: string): (r: Result<Uuid, ErrorModel>)
    ensures r.Ok? <==> parse(uuidString).Some?
    ensures r.Ok? ==> r.value == parse(uuidString).value
    ensures r.Err? ==> r.error == NotMappable(uuidString) && r.error.httpStatusCode == 406
  {
    match parse(uuidString)
    case Some(id) => Ok(id)
    case None => Err(NotMappable(uuidString))
  }

  /** What is left of a set being filled when the rest of the ids parse to `rest`. */
  function AddAll(acc: set<Uuid>, rest: Result<set<Uuid>, ErrorModel>): Result<set<Uuid>, ErrorModel> {
    match rest
    case Ok(s) => Ok(acc + s)
    case Err(e) => Err(e)
  }

  lemma AddAllEmpty(r: Result<set<Uuid>, ErrorModel>)
    ensures AddAll({}, r) == r
  {
    if r.Ok? {
      assert {} + r.value == r.value;
    }
  }

  /** Every id parsed in list order, the first malformed one stopping the parse. */
  function ParseList(parse: UuidParser, ids: seq<string>): Result<set<Uuid>, ErrorModel> {
    if ids == [] then Ok({})
    else
      match ParseUuidFromString(parse, ids[0])
      case Err(e) => Err(e)
      case Ok(id) => AddAll({id}, ParseList(parse, ids[1..]))
  }

  /** The ids of `ids` that parse. */
  function ParsedIds(parse: UuidParser, ids: seq<string>): set<Uuid> {
    set k | 0 <= k < |ids| && parse(ids[k]).Some? :: parse(ids[k]).value
  }

  /** The parse succeeds exactly when every id is well formed, and then gives the set of all
      of them: duplicates collapse, and the order does not matter. */
  lemma {:induction false} ParseListOk(parse: UuidParser, ids: seq<string>)
    ensures ParseList(parse, ids).Ok? <==> forall k :: 0 <= k < |ids| ==> parse(ids[k]).Some?
    ensures ParseList(parse, ids).Ok? ==> ParseList(parse, ids).value == ParsedIds(parse, ids)
  {
    if ids != [] {
      var tail := ids[1..];
      ParseListOk(parse, tail);
      if parse(ids[0]).Some? {
        forall k | 0 < k < |ids| ensures ids[k] == tail[k - 1] { }
        ParsedIdsCons(parse, ids);
      }
    }
  }

  lemma ParsedIdsCons(parse: UuidParser, ids: seq<string>)
    requires ids != [] && parse(ids[0]).Some?
    ensures ParsedIds(parse, ids) == {parse(ids[0]).value} + ParsedIds(parse, ids[1..])
  {
    var tail := ids[1..];
    forall u | u in ParsedIds(parse, ids) ensures u in {parse(ids[0]).value} + ParsedIds(parse, tail) {
      var k :| 0 <= k < |ids| && parse(ids[k]).Some? && u == parse(ids[k]).value;
      if k > 0 {
        assert tail[k - 1] == ids[k];
      }
    }
    forall u | u in ParsedIds(parse, tail) ensures u in ParsedIds(parse, ids) {
      var k :| 0 <= k < |tail| && parse(tail[k]).Some? && u == parse(tail[k]).value;
      assert ids[k + 1] == tail[k];
    }
  }

  /** A failed parse reports the first malformed id. */
  lemma {:induction false} ParseListFirstError(parse: UuidParser, ids: seq<string>) returns (i: nat)
    requires ParseList(parse, ids).Err?
    ensures i < |ids| && parse(ids[i]).None?
    ensures forall k :: 0 <= k < i ==> parse(ids[k]).Some?
    ensures ParseList(parse, ids).error == NotMappable(ids[i])
  {
    if parse(ids[0]).None? {
      i := 0;
    } else {
      var tail := ids[1..];
      var j := ParseListFirstError(parse, tail);
      i := j + 1;
      forall k | 0 < k < i ensures parse(ids[k]).Some? {
        assert ids[k] == tail[k - 1];
      }
    }
  }

  /** One id of the loop: once ids[..i] have gone into `acc`, parsing ids[i] and adding it
      leaves the rest to parse. */
  lemma ParseListStep(parse: UuidParser, ids: seq<string>, i: nat, acc: set<Uuid>)
    requires i < |ids|
    ensures ParseUuidFromString(parse, ids[i]).Err? ==>
      AddAll(acc, ParseList(parse, ids[i..])) == Err(ParseUuidFromString(parse, ids[i]).error)
    ensures ParseUuidFromString(parse, ids[i]).Ok? ==>
      AddAll(acc, ParseList(parse, ids[i..])) == AddAll(acc + {parse(ids[i]).value}, ParseList(parse, ids[i + 1..]))
  {
    assert ids[i..][0] == ids[i];
    assert ids[i..][1..] == ids[i + 1..];
    if parse(ids[i]).Some? {
      var u := parse(ids[i]).value;
      match ParseList(parse, ids[i + 1..])
      case Ok(s) => assert acc + ({u} + s) == acc + {u} + s;
      case Err(e) =>
    }
  }

  /** The loop shared by parseUuidsFromList and parseUuids: add the id of every string in
      order, stopping at the first one that does not parse. */
  method ParseEach(parse: UuidParser, ids: seq<string>) returns (r: Result<set<Uuid>, ErrorModel>)
    ensures r == ParseList(parse, ids)
  {
    var uuids: set<Uuid> := {};
    var i := 0;
    assert ids[i..] == ids;
    AddAllEmpty(ParseList(parse, ids));
    while i < |ids|
      invariant 0 <= i <= |ids|
      invariant ParseList(parse, ids) == AddAll(uuids, ParseList(parse, ids[i..]))
    {
      ParseListStep(parse, ids, i, uuids);
      var id := ParseUuidFromString(parse, ids[i]);
      if id.Err? {
        return Err(id.error);
      }
      uuids := uuids + {id.value};
      i := i + 1;
    }
    assert ids[i..] == [];
    assert uuids + {} == uuids;
    r := Ok(uuids);
  }

  /** A Set<UUID> that may be null, or the error that stopped the request. */
  type Filter = Result<Option<set<Uuid>>, ErrorModel>

  function AsFilter(r: Result<set<Uuid>, ErrorModel>): Filter {
    match r
    case Ok(s) => Ok(Some(s))
    case Err(e) => Err(e)
  }

  /** The pieces of a comma-separated list, each trimmed. */
  function TrimmedPieces(csl: string): seq<string> {
    Seqs.Map(JavaSplitComma(csl), Trim)
  }

  /** parseUuidsFromList: null stays null; otherwise every element, untrimmed. */
  method ParseUuidsFromList(parse: UuidParser, uuidSet: Option<seq<string>>) returns (r: Filter)
    ensures uuidSet.None? ==> r == Ok(None)
    ensures uuidSet.Some? ==> r == AsFilter(ParseList(parse, uuidSet.value))
  {
    if uuidSet.Some? {
      var uuids := ParseEach(parse, uuidSet.value);
      r := AsFilter(uuids);
    } else {
      r := Ok(None);
    }
  }

  /** parseUuids: null stays null; otherwise the pieces of split(","), each trimmed. */
  method ParseUuids(parse: UuidParser, uuidsCsl: Option<string>) returns (r: Filter)
    ensures uuidsCsl.None? ==> r == Ok(None)
    ensures uuidsCsl.Some? ==> r == AsFilter(ParseList(parse, TrimmedPieces(uuidsCsl.value)))
  {
    if uuidsCsl.Some? {
      var pieces := JavaSplitComma(uuidsCsl.value);
      var trimmed := Seqs.Map(pieces, Trim);
      var uriSet := ParseEach(parse, trimmed);
      r := AsFilter(uriSet);
    } else {
      r := Ok(None);
    }
  }

  /** Piece k of the list, trimmed. */
  lemma TrimmedPiecesAt(csl: string, k: nat)
    requires k < |JavaSplitComma(csl)|
    ensures |TrimmedPieces(csl)| == |JavaSplitComma(csl)|
    ensures TrimmedPieces(csl)[k] == Trim(JavaSplitComma(csl)[k])
  {
    Seqs.MapAt(JavaSplitComma(csl), Trim, k);
  }

  /** GET /v1/integration/containers: the container filter is parsed only when `uri` is given. */
  method GetContainersFilter(parse: UuidParser, uri: Option<string>) returns (includedContainerUuids: Filter)
    ensures uri.None? ==> includedContainerUuids == Ok(None)
    ensures uri.Some? ==> includedContainerUuids == AsFilter(ParseList(parse, TrimmedPieces(uri.value)))
  {
    if uri.Some? {
      includedContainerUuids := ParseUuids(parse, uri);
    } else {
      includedContainerUuids := Ok(None);
    }
  }

  /** The filters of a resources request: the container id (null when no container is given)
      and the resource ids. */
  type ResourceFilters = Result<(Option<Uuid>, Option<set<Uuid>>), ErrorModel>

  function Combine(containerId: Option<Uuid>, ids: Filter): ResourceFilters {
    match ids
    case Ok(s) => Ok((containerId, s))
    case Err(e) => Err(e)
  }

  /** GET /v1/integration/resources: a malformed container is reported before the resource
      ids are looked at; each is parsed only when given. */
  method GetResourcesFilters(parse: UuidParser, containerUri: Option<string>, uri: Option<string>) returns (r: ResourceFilters)
    ensures containerUri.Some? && parse(containerUri.value).None? ==> r == Err(NotMappable(containerUri.value))
    ensures containerUri.None? ==> r == Combine(None, if uri.Some? then AsFilter(ParseList(parse, TrimmedPieces(uri.value))) else Ok(None))
    ensures containerUri.Some? && parse(containerUri.value).Some? ==>
      r == Combine(parse(containerUri.value), if uri.Some? then AsFilter(ParseList(parse, TrimmedPieces(uri.value))) else Ok(None))
  {
    var containerId: Option<Uuid>;
    if containerUri.Some? {
      var parsed := ParseUuidFromString(parse, containerUri.value);
      if parsed.Err? {
        return Err(parsed.error);
      }
      containerId := Some(parsed.value);
    } else {
      containerId := None;
    }
    var includedResourceUuids: Filter;
    if uri.Some? {
      includedResourceUuids := ParseUuids(parse, uri);
    } else {
      includedResourceUuids := Ok(None);
    }
    r := Combine(containerId, includedResourceUuids);
  }

  /** POST /v1/integration/containers: the ids of the body's list. */
  method PostContainersFilter(parse: UuidParser, request: IntegrationRequest) returns (includedContainerUuids: Filter)
    ensures request.uri.None? ==> includedContainerUuids == Ok(None)
    ensures request.uri.Some? ==> includedContainerUuids == AsFilter(ParseList(parse, request.uri.value))
  {
    includedContainerUuids := ParseUuidsFromList(parse, request.uri);
  }

  /** POST /v1/integration/resources: the container first, then the ids of the body's list. */
  method PostResourcesFilters(parse: UuidParser, request: IntegrationRequest) returns (r: ResourceFilters)
    ensures request.container.Some? && parse(request.container.value).None? ==> r == Err(NotMappable(request.container.value))
    ensures request.container.None? ==>
      r == Combine(None, if request.uri.Some? then AsFilter(ParseList(parse, request.uri.value)) else Ok(None))
    ensures request.container.Some? && parse(request.container.value).Some? ==>
      r == Combine(parse(request.container.value), if request.uri.Some? then AsFilter(ParseList(parse, request.uri.value)) else Ok(None))
  {
    var containerId: Option<Uuid> := None;
    if request.container.Some? {
      var parsed := ParseUuidFromString(parse, request.container.value);
      if parsed.Err? {
        return Err(parsed.error);
      }
      containerId := Some(parsed.value);
    }
    var includedResourceUuids := ParseUuidsFromList(parse, request.uri);
    r := Combine(containerId, includedResourceUuids);
  }
}
