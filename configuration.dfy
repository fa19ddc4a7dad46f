/** The configuration the URL builders read: the bound `uri.*` properties, the default
    language, the application's public address, and the path constants of the API. */
module Configuration {
  import opened Wrappers

  /** The application.* properties (CommentsApiConfiguration) the URL builders read. */
  datatype CommentsApiConfiguration = CommentsApiConfiguration(contextPath: string, publicUrl: string)

  /** The path segments ApiConstants defines; their values are not part of this model. */
  datatype ApiConstants = ApiConstants(
    apiBasePath: string,
    apiVersionV1: string,
    apiPathCommentRounds: string,
    apiPathCommentThreads: string,
    codelistApiContextPath: string,
    codelistApiPath: string,
    codelistApiVersion: string,
    apiIntegration: string,
    apiContainers: string,
    apiResources: string)

  /** The uri.* properties: where the URIs of rounds, threads and comments live. */
  class UriProperties {
    var host: string
    var scheme: string
    var contextPath: string

    /** The properties as bound at start-up (all three are validated to be non-null). */
    constructor(host: string, scheme: string, contextPath: string)
      ensures this.host == host && this.scheme == scheme && this.contextPath == contextPath
    {
      this.host := host;
      this.scheme := scheme;
      this.contextPath := contextPath;
    }

    function GetHost(): string
      reads this
    {
      host
    }

    function GetScheme(): string
      reads this
    {
      scheme
    }

    function GetContextPath(): string
      reads this
    {
      contextPath
    }

    method SetHost(host: string)
      modifies this
      ensures GetHost() == host
      ensures scheme == old(scheme) && contextPath == old(contextPath)
    {
      this.host := host;
    }

    method SetScheme(scheme: string)
      modifies this
      ensures GetScheme() == scheme
      ensures host == old(host) && contextPath == old(contextPath)
    {
      this.scheme := scheme;
    }

    method SetContextPath(contextPath: string)
      modifies this
      ensures GetContextPath() == contextPath
      ensures host == old(host) && scheme == old(scheme)
      ensures GetUriHost() == old(GetUriHost())
    {
      this.contextPath := contextPath;
    }

    /** scheme://host */
    function GetUriHost(): (uriHost: string)
      reads this
      ensures |uriHost| == |scheme| + 3 + |host|
      ensures uriHost[..|scheme|] == scheme && uriHost[|scheme|..|scheme| + 3] == "://"
      ensures uriHost[|scheme| + 3..] == host
    {
      scheme + "://" + host
    }

    /** scheme://host followed by the context path. */
    function GetUriHostAddress(): (address: string)
      reads this
      ensures |address| == |scheme| + 3 + |host| + |contextPath|
      ensures address[|address| - |contextPath|..] == contextPath
    {
      scheme + "://" + host + contextPath
    }

    /** The host address is the host followed by the context path, so the host is a prefix
        of it, and both start with the scheme and "://". */
    lemma UriHostAddressExtendsUriHost()
      ensures GetUriHostAddress() == GetUriHost() + GetContextPath()
      ensures GetUriHost() <= GetUriHostAddress()
      ensures GetUriHost()[..|scheme| + 3] == scheme + "://"
      ensures GetUriHostAddress()[..|scheme| + 3] == scheme + "://"
    {
      var h := GetUriHost();
      assert h == (scheme + "://") + host;
      assert GetUriHostAddress() == h + contextPath;
      assert GetUriHostAddress()[..|h|] == h;
      assert h[..|scheme| + 3] == scheme + "://";
    }
  }

  /** The top-level properties: the language of texts written for everyone. */
  class CommentsApiProperties {
    var defaultLanguage: Option<string>

    /** Unset until a value is bound. */
    constructor()
      ensures defaultLanguage.None?
    {
      defaultLanguage := None;
    }

    /** The bound language, "en" when none is bound. */
    function GetDefaultLanguage(): (language: string)
      reads this
      ensures defaultLanguage.None? ==> language == "en"
      ensures defaultLanguage.Some? ==> language == defaultLanguage.value
    {
      defaultLanguage.GetOr("en")
    }

    /** Binding null brings the default back. */
    method SetDefaultLanguage(defaultLanguage: Option<string>)
      modifies this
      ensures this.defaultLanguage == defaultLanguage
      ensures GetDefaultLanguage() == if defaultLanguage.Some? then defaultLanguage.value else "en"
    {
      this.defaultLanguage := defaultLanguage;
    }
  }
}
