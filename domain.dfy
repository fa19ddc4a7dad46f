/** The entities the export and the result tally read, and the collaborators they call. */
module Domain {
  import opened Wrappers

  /** java.util.UUID: a 128-bit value. */
  type Uuid = x: int | 0 <= x < 0x1_0000_0000_0000_0000_0000_0000_0000_0000

  /** A LocalDateTime / LocalDate, as a point on a line; only its order and its formatting matter. */
  type DateTime = int
  type Date = int

  /** A Map<String, String> from language code to text, as the entries in iteration order. */
  type LocalizedText = seq<(string, string)>

  /** A comment; `parentId` is the id of getParentComment() (None for a top-level comment) and
      `threadResourceUri` is getCommentThread().getResourceUri(). */
  datatype Comment = Comment(
    id: Uuid,
    parentId: Option<Uuid>,
    userId: Uuid,
    content: Option<string>,
    proposedStatus: Option<string>,
    endStatus: Option<string>,
    created: DateTime,
    modified: Option<DateTime>,
    uri: Option<string>,
    threadResourceUri: Option<string>)

  datatype CommentThread = CommentThread(
    id: Uuid,
    labelText: LocalizedText,
    localName: Option<string>,
    description: LocalizedText,
    resourceUri: Option<string>,
    currentStatus: Option<string>,
    proposedStatus: Option<string>,
    proposedText: Option<string>,
    created: DateTime,
    userId: Uuid,
    comments: seq<Comment>)

  datatype Organization = Organization(id: Uuid)

  datatype Source = Source(containerType: string, containerUri: Option<string>)

  datatype CommentRound = CommentRound(
    labelText: Option<string>,
    description: Option<string>,
    status: string,
    uri: Option<string>,
    userId: Uuid,
    organizations: Option<seq<Organization>>,
    sourceLabel: LocalizedText,
    source: Source,
    startDate: Option<Date>,
    endDate: Option<Date>,
    created: Option<DateTime>,
    modified: Option<DateTime>,
    commentThreads: seq<CommentThread>)

  /** UserDTO as returned by the user directory. */
  datatype UserDto = UserDto(firstName: Option<string>, lastName: Option<string>)

  /** MessageSource.getMessage(key, null, Locale.forLanguageTag(language)). */
  type MessageSource = (string, string) -> string

  /** The persistence layer as the result tally sees it: the comments of every stored thread.
      CommentThreadDao.findById(id) is non-null exactly when id is a key. */
  datatype CommentStore = CommentStore(threadComments: map<Uuid, seq<Comment>>)

  /** Everything the export calls out to. */
  datatype Collaborators = Collaborators(
    messages: MessageSource,
    /** UserService.getUserById */
    users: Uuid -> Option<UserDto>,
    /** Organization.getPrefLabel(language) */
    orgPrefLabel: (Organization, string) -> string,
    /** CommentDao.getCommentThreadMainCommentCount */
    mainCommentCount: Uuid -> int,
    /** dd/MM/yyyy */
    formatDate: Date -> string,
    /** dd/MM/yyyy HH:mm after the time-zone conversion */
    formatDateTime: DateTime -> string,
    /** String.format("%.1f", percentage) */
    formatPercentage: real -> string,
    store: CommentStore,
    /** CommentsApiProperties.getDefaultLanguage(), the language of the result text */
    defaultLanguage: string)
}
