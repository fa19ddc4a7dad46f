/** The links the API hands out for comment rounds, threads and comments: REST URLs under the
    API's public address, web URLs of the front end, and persistent URIs under uri.*. */
module ApiUtils {
  import opened Wrappers
  import opened Strings
  import opened Configuration
  import Seqs

  const PATH_ROUND: string := "/round"
  const PATH_THREAD: string := "/thread"
  const PATH_COMMENT: string := "/comment"

  class ApiUtils {
    const commentsApiConfiguration: CommentsApiConfiguration
    const constants: ApiConstants
    const uriProperties: UriProperties

    constructor(commentsApiConfiguration: CommentsApiConfiguration, constants: ApiConstants, uriProperties: UriProperties)
      ensures this.commentsApiConfiguration == commentsApiConfiguration
      ensures this.constants == constants
      ensures this.uriProperties == uriProperties
    {
      this.commentsApiConfiguration := commentsApiConfiguration;
      this.constants := constants;
      this.uriProperties := uriProperties;
    }

    /** The first appends of createResourceUrl: public URL, context path, API base path, "/"
        and the API version. */
    function ApiRoot(): string {
      commentsApiConfiguration.publicUrl + commentsApiConfiguration.contextPath
        + constants.apiBasePath + "/" + constants.apiVersionV1
    }

    /** createResourceUrl: the root, the API path, "/", and the id unless it is null or empty. */
    function CreateResourceUrl(apiPath: string, resourceId: Option<string>): (url: string)
      ensures ApiRoot() + apiPath + "/" <= url
      ensures url == ApiRoot() + apiPath + "/" <==> resourceId.None? || resourceId.value == ""
      ensures resourceId.Some? ==> url[|ApiRoot() + apiPath + "/"|..] == resourceId.value
    {
      var stem := ApiRoot() + apiPath + "/";
      if resourceId.Some? && resourceId.value != "" then
        Seqs.PrefixOfAppend(stem, stem, resourceId.value);
        stem + resourceId.value
      else stem
    }

    /** The URL starts with the public address and the API root, then the path and "/"; an
        empty id gives the same URL as none, and any other id ends it. */
    lemma ResourceUrlShape(apiPath: string, resourceId: Option<string>)
      ensures var url := CreateResourceUrl(apiPath, resourceId);
        var stem := ApiRoot() + apiPath + "/";
        && commentsApiConfiguration.publicUrl + commentsApiConfiguration.contextPath <= url
        && (resourceId.None? || resourceId == Some("") ==> url == stem)
        && (resourceId.Some? && resourceId.value != "" ==> url == stem + resourceId.value)
      ensures CreateResourceUrl(apiPath, Some("")) == CreateResourceUrl(apiPath, None)
    {
      var front := commentsApiConfiguration.publicUrl + commentsApiConfiguration.contextPath;
      var a := front + constants.apiBasePath;
      var b := a + "/";
      var stem := ApiRoot() + apiPath + "/";
      Seqs.PrefixOfAppend(front, front, constants.apiBasePath);
      Seqs.PrefixOfAppend(front, a, "/");
      Seqs.PrefixOfAppend(front, b, constants.apiVersionV1);
      Seqs.PrefixOfAppend(front, ApiRoot(), apiPath);
      Seqs.PrefixOfAppend(front, ApiRoot() + apiPath, "/");
      if resourceId.Some? {
        Seqs.PrefixOfAppend(front, stem, resourceId.value);
      }
    }

    /** The round's number is always appended: a number never prints as the empty string. */
    function CreateCommentRoundUrl(commentRoundSequenceId: int): (url: string)
      ensures url == CreateResourceUrl(constants.apiPathCommentRounds, None) + IntToString(commentRoundSequenceId)
    {
      CreateResourceUrl(constants.apiPathCommentRounds, Some(IntToString(commentRoundSequenceId)))
    }

    function CreatePublicUrl(): string {
      commentsApiConfiguration.publicUrl
    }

    /** The round's web URL: the public address, then the round's number after "/round;round=". */
    function CreateCommentRoundWebUrl(commentRoundSequenceId: int): (url: string)
      ensures CreatePublicUrl() + "/round;round=" <= url
      ensures url[|CreatePublicUrl() + "/round;round="|..] == IntToString(commentRoundSequenceId)
    {
      CreatePublicUrl() + "/round;round=" + IntToString(commentRoundSequenceId)
    }

    /** createCommentThreadUrl as written: the round's id goes where the thread's id belongs. */
    function CreateCommentThreadUrl(commentRoundSequenceId: int, commentThreadSequenceId: int): (url: string)
      ensures CreateCommentRoundUrl(commentRoundSequenceId) <= url
    {
      var round := CreateCommentRoundUrl(commentRoundSequenceId);
      ThreadsPathUnderRound(commentRoundSequenceId);
      Seqs.PrefixOfAppend(round, round, constants.apiPathCommentThreads);
      Seqs.PrefixOfAppend(round, round + constants.apiPathCommentThreads, "/");
      Seqs.PrefixOfAppend(round, round + constants.apiPathCommentThreads + "/", IntToString(commentRoundSequenceId));
      CreateResourceUrl(constants.apiPathCommentRounds + "/" + IntToString(commentRoundSequenceId) + constants.apiPathCommentThreads,
        Some(IntToString(commentRoundSequenceId)))
    }

    /** The root followed by the threads path of round r is the round's URL followed by the
        threads path. */
    lemma ThreadsPathUnderRound(r: int)
      ensures ApiRoot() + (constants.apiPathCommentRounds + "/" + IntToString(r) + constants.apiPathCommentThreads)
           == CreateCommentRoundUrl(r) + constants.apiPathCommentThreads
    {
      var P, R := constants.apiPathCommentRounds, IntToString(r);
      Seqs.Assoc(ApiRoot(), P + "/" + R, constants.apiPathCommentThreads);
      Seqs.Assoc(ApiRoot(), P + "/", R);
      Seqs.Assoc(ApiRoot(), P, "/");
    }

    /** The thread URL does not depend on the thread: two threads of a round share it. */
    lemma CommentThreadUrlIgnoresThread(r: int, t: int, t': int)
      ensures CreateCommentThreadUrl(r, t) == CreateCommentThreadUrl(r, t')
      ensures CreateCommentThreadUrl(r, t) == CreateCommentRoundUrl(r) + constants.apiPathCommentThreads + "/" + IntToString(r)
    {
      ThreadsPathUnderRound(r);
    }

    /** The thread URL with the thread's id where the code puts the round's. */
    function CreateCommentThreadUrlIntended(commentRoundSequenceId: int, commentThreadSequenceId: int): string {
      CreateResourceUrl(constants.apiPathCommentRounds + "/" + IntToString(commentRoundSequenceId) + constants.apiPathCommentThreads,
        Some(IntToString(commentThreadSequenceId)))
    }

    /** With the thread's id the REST URLs nest like the resources: a thread's URL extends
        its round's, a comment's extends its thread's, and different threads of a round get
        different URLs. */
    lemma CommentThreadUrlIntendedNests(r: int, t: int, c: int, t': int)
      ensures CreateCommentThreadUrlIntended(r, t) == CreateCommentRoundUrl(r) + constants.apiPathCommentThreads + "/" + IntToString(t)
      ensures CreateCommentUrl(r, t, c) == CreateCommentThreadUrlIntended(r, t) + "/" + IntToString(c)
      ensures t != t' ==> CreateCommentThreadUrlIntended(r, t) != CreateCommentThreadUrlIntended(r, t')
    {
      ThreadsPathUnderRound(r);
      var threads := constants.apiPathCommentRounds + "/" + IntToString(r) + constants.apiPathCommentThreads;
      Seqs.Assoc(ApiRoot(), threads + "/", IntToString(t));
      Seqs.Assoc(ApiRoot(), threads, "/");
      var stem := ApiRoot() + threads + "/";
      if t != t' && CreateCommentThreadUrlIntended(r, t) == CreateCommentThreadUrlIntended(r, t') {
        Seqs.AppendCancel(stem, IntToString(t), IntToString(t'));
        IntToStringInjective(t, t');
      }
    }

    function CreateCommentThreadWebUrl(commentRoundSequenceId: int, commentThreadSequenceId: int): (url: string)
      ensures CreateCommentRoundWebUrl(commentRoundSequenceId) <= url
    {
      Seqs.PrefixOfAppend(CreateCommentRoundWebUrl(commentRoundSequenceId), CreateCommentRoundWebUrl(commentRoundSequenceId), ";thread=");
      Seqs.PrefixOfAppend(CreateCommentRoundWebUrl(commentRoundSequenceId), CreateCommentRoundWebUrl(commentRoundSequenceId) + ";thread=", IntToString(commentThreadSequenceId));
      CreatePublicUrl() + "/round;round=" + IntToString(commentRoundSequenceId) + ";thread=" + IntToString(commentThreadSequenceId)
    }

    function CreateCommentUrl(commentRoundSequenceId: int, commentThreadSequenceId: int, commentSequenceId: int): (url: string)
      ensures ApiRoot() + constants.apiPathCommentRounds + "/" + IntToString(commentRoundSequenceId) <= url
    {
      CommentUrlUnderRound(commentRoundSequenceId, commentThreadSequenceId, commentSequenceId);
      CreateResourceUrl(constants.apiPathCommentRounds + "/" + IntToString(commentRoundSequenceId) + constants.apiPathCommentThreads
        + "/" + IntToString(commentThreadSequenceId), Some(IntToString(commentSequenceId)))
    }

    /** A comment's REST URL starts with the root, the rounds path and the round's number. */
    lemma CommentUrlUnderRound(r: int, t: int, c: int)
      ensures var stem := ApiRoot() + constants.apiPathCommentRounds + "/" + IntToString(r);
        var path := constants.apiPathCommentRounds + "/" + IntToString(r) + constants.apiPathCommentThreads + "/" + IntToString(t);
        stem <= ApiRoot() + path + "/"
    {
      var X, P, R, T, U := ApiRoot(), constants.apiPathCommentRounds, IntToString(r), constants.apiPathCommentThreads, IntToString(t);
      var stem := X + P + "/" + R;
      Seqs.Assoc(X, P + "/" + R + T + "/", U);
      Seqs.Assoc(X, P + "/" + R + T, "/");
      Seqs.Assoc(X, P + "/" + R, T);
      Seqs.Assoc(X, P + "/", R);
      Seqs.Assoc(X, P, "/");
      Seqs.PrefixOfAppend(stem, stem, T);
      Seqs.PrefixOfAppend(stem, stem + T, "/");
      Seqs.PrefixOfAppend(stem, stem + T + "/", U);
      Seqs.PrefixOfAppend(stem, stem + T + "/" + U, "/");
    }

    /** A comment's REST URL ends with "/" and the comment's id. */
    lemma CommentUrlEndsWithComment(r: int, t: int, c: int)
      ensures var url := CreateCommentUrl(r, t, c);
        var tail := "/" + IntToString(c);
        |tail| <= |url| && url[|url| - |tail|..] == tail
    {
      var path := constants.apiPathCommentRounds + "/" + IntToString(r) + constants.apiPathCommentThreads + "/" + IntToString(t);
      Seqs.Assoc(ApiRoot() + path, "/", IntToString(c));
      Seqs.SuffixOfAppend(ApiRoot() + path, "/" + IntToString(c));
    }

    function CreateCommentWebUrl(commentRoundSequenceId: int, commentThreadSequenceId: int, commentSequenceId: int): (url: string)
      ensures CreateCommentThreadWebUrl(commentRoundSequenceId, commentThreadSequenceId) <= url
    {
      var thread := CreateCommentThreadWebUrl(commentRoundSequenceId, commentThreadSequenceId);
      Seqs.PrefixOfAppend(thread, thread, ";comment=");
      Seqs.PrefixOfAppend(thread, thread + ";comment=", IntToString(commentSequenceId));
      CreatePublicUrl() + "/round;round=" + IntToString(commentRoundSequenceId) + ";thread=" + IntToString(commentThreadSequenceId)
        + ";comment=" + IntToString(commentSequenceId)
    }

    /** The web URLs extend one another: round, then ";thread=", then ";comment=". */
    lemma WebUrlsNest(r: int, t: int, c: int)
      ensures CreateCommentThreadWebUrl(r, t) == CreateCommentRoundWebUrl(r) + ";thread=" + IntToString(t)
      ensures CreateCommentWebUrl(r, t, c) == CreateCommentThreadWebUrl(r, t) + ";comment=" + IntToString(c)
      ensures CreateCommentRoundWebUrl(r) <= CreateCommentWebUrl(r, t, c)
    {
      var round := CreateCommentRoundWebUrl(r);
      var thread := CreateCommentThreadWebUrl(r, t);
      Seqs.PrefixOfAppend(round, round, ";thread=");
      Seqs.PrefixOfAppend(round, round + ";thread=", IntToString(t));
      Seqs.PrefixOfAppend(round, thread, ";comment=");
      Seqs.PrefixOfAppend(round, thread + ";comment=", IntToString(c));
    }

    function CreateCommentRoundUri(commentRoundSequenceId: int): (uri: string)
      reads uriProperties
      ensures uriProperties.GetUriHostAddress() + PATH_ROUND + "/" <= uri
      ensures uri[|uriProperties.GetUriHostAddress() + PATH_ROUND + "/"|..] == IntToString(commentRoundSequenceId)
    {
      uriProperties.GetUriHostAddress() + PATH_ROUND + "/" + IntToString(commentRoundSequenceId)
    }

    function CreateCommentThreadUri(commentRoundSequenceId: int, commentThreadSequenceId: int): (uri: string)
      reads uriProperties
      ensures CreateCommentRoundUri(commentRoundSequenceId) <= uri
    {
      var round := CreateCommentRoundUri(commentRoundSequenceId);
      Seqs.PrefixOfAppend(round, round, PATH_THREAD);
      Seqs.PrefixOfAppend(round, round + PATH_THREAD, "/");
      Seqs.PrefixOfAppend(round, round + PATH_THREAD + "/", IntToString(commentThreadSequenceId));
      uriProperties.GetUriHostAddress() + PATH_ROUND + "/" + IntToString(commentRoundSequenceId) + PATH_THREAD + "/" + IntToString(commentThreadSequenceId)
    }

    function CreateCommentUri(commentRoundSequenceId: int, commentThreadSequenceId: int, commentSequenceId: int): (uri: string)
      reads uriProperties
      ensures CreateCommentThreadUri(commentRoundSequenceId, commentThreadSequenceId) <= uri
    {
      var thread := CreateCommentThreadUri(commentRoundSequenceId, commentThreadSequenceId);
      Seqs.PrefixOfAppend(thread, thread, PATH_COMMENT);
      Seqs.PrefixOfAppend(thread, thread + PATH_COMMENT, "/");
      Seqs.PrefixOfAppend(thread, thread + PATH_COMMENT + "/", IntToString(commentSequenceId));
      uriProperties.GetUriHostAddress() + PATH_ROUND + "/" + IntToString(commentRoundSequenceId) + PATH_THREAD + "/" + IntToString(commentThreadSequenceId)
        + PATH_COMMENT + "/" + IntToString(commentSequenceId)
    }

    /** The URIs extend one another: a thread's URI is its round's followed by "/thread/" and
        the thread's id, a comment's is its thread's followed by "/comment/" and its id. */
    lemma UrisNest(r: int, t: int, c: int)
      ensures CreateCommentThreadUri(r, t) == CreateCommentRoundUri(r) + "/thread/" + IntToString(t)
      ensures CreateCommentUri(r, t, c) == CreateCommentThreadUri(r, t) + "/comment/" + IntToString(c)
      ensures CreateCommentRoundUri(r) <= CreateCommentUri(r, t, c)
    {
      var round := CreateCommentRoundUri(r);
      var thread := CreateCommentThreadUri(r, t);
      assert PATH_THREAD + "/" == "/thread/";
      assert PATH_COMMENT + "/" == "/comment/";
      Seqs.Assoc(round, PATH_THREAD, "/");
      Seqs.Assoc(thread, PATH_COMMENT, "/");
      Seqs.PrefixOfAppend(round, round, "/thread/");
      Seqs.PrefixOfAppend(round, round + "/thread/", IntToString(t));
      Seqs.PrefixOfAppend(round, thread, "/comment/");
      Seqs.PrefixOfAppend(round, thread + "/comment/", IntToString(c));
    }

    /** Different rounds get different URIs: the id is all that follows "/round/". */
    lemma CommentRoundUriInjective(r: int, r': int)
      requires CreateCommentRoundUri(r) == CreateCommentRoundUri(r')
      ensures r == r'
    {
      var prefix := uriProperties.GetUriHostAddress() + PATH_ROUND + "/";
      Seqs.AppendCancel(prefix, IntToString(r), IntToString(r'));
      IntToStringInjective(r, r');
    }
  }
}
