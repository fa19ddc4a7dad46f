/** The second REST URL builder: like ApiUtils's, but with a "/" after the context path, after
    the API version and after the API path, and with any non-null id appended, even "". */
module UrlGenerator {
  import opened Wrappers
  import opened Configuration
  import Seqs

  class UrlGenerator {
    const commentsApiProperties: CommentsApiConfiguration
    const constants: ApiConstants

    constructor(commentsApiProperties: CommentsApiConfiguration, constants: ApiConstants)
      ensures this.commentsApiProperties == commentsApiProperties
      ensures this.constants == constants
    {
      this.commentsApiProperties := commentsApiProperties;
      this.constants := constants;
    }

    /** The public URL and the context path: where every URL of this builder starts. */
    function Front(): string {
      commentsApiProperties.publicUrl + commentsApiProperties.contextPath
    }

    /** Everything createResourceUrl appends before the id. */
    function Stem(apiPath: string): string {
      Front() + "/" + constants.apiBasePath + "/" + constants.apiVersionV1 + "/" + apiPath + "/"
    }

    /** createResourceUrl. */
    function CreateResourceUrl(apiPath: string, resourceId: Option<string>): (url: string)
      ensures |url| == |Stem(apiPath)| + if resourceId.Some? then |resourceId.value| else 0
      ensures url[..|Stem(apiPath)|] == Stem(apiPath)
    {
      if resourceId.Some? then Stem(apiPath) + resourceId.value else Stem(apiPath)
    }

    /** The URL starts with the public URL and the context path; without an id it ends with
        "/"; with one, the id is what follows the stem, so it ends the URL and an empty id is
        kept (appended as nothing) rather than treated as missing. */
    lemma ResourceUrlShape(apiPath: string, resourceId: Option<string>)
      ensures var url := CreateResourceUrl(apiPath, resourceId);
        && Front() <= url
        && Stem(apiPath) <= url
        && (resourceId.None? ==> url == Stem(apiPath) && |url| > 0 && url[|url| - 1] == '/')
        && (resourceId.Some? ==> |resourceId.value| <= |url| && url[|url| - |resourceId.value|..] == resourceId.value)
    {
      var f := Front();
      var s1 := f + "/";
      var s2 := s1 + constants.apiBasePath;
      var s3 := s2 + "/";
      var s4 := s3 + constants.apiVersionV1;
      var s5 := s4 + "/";
      var s6 := s5 + apiPath;
      Seqs.PrefixOfAppend(f, f, "/");
      Seqs.PrefixOfAppend(f, s1, constants.apiBasePath);
      Seqs.PrefixOfAppend(f, s2, "/");
      Seqs.PrefixOfAppend(f, s3, constants.apiVersionV1);
      Seqs.PrefixOfAppend(f, s4, "/");
      Seqs.PrefixOfAppend(f, s5, apiPath);
      Seqs.PrefixOfAppend(f, s6, "/");
      var stem := Stem(apiPath);
      if resourceId.Some? {
        Seqs.PrefixOfAppend(f, stem, resourceId.value);
        Seqs.PrefixOfAppend(stem, stem, resourceId.value);
        Seqs.SuffixOfAppend(stem, resourceId.value);
      }
    }

    /** An id extends the URL without one; the URLs of two ids of the same path differ
        exactly when the ids do. */
    lemma ResourceUrlExtends(apiPath: string, id: string, id': string)
      ensures CreateResourceUrl(apiPath, Some(id)) == CreateResourceUrl(apiPath, None) + id
      ensures CreateResourceUrl(apiPath, Some(id)) == CreateResourceUrl(apiPath, Some(id')) <==> id == id'
    {
      if CreateResourceUrl(apiPath, Some(id)) == CreateResourceUrl(apiPath, Some(id')) {
        Seqs.AppendCancel(Stem(apiPath), id, id');
      }
    }
  }
}
