/**
 * The read-only entities the export command walks: comments, their parent
 * statuses (posts), the feed a status belongs to, the feed's political persona
 * (an MK) and the commentator who wrote the comment.  The ORM relations are
 * flattened into plain fields; a status is identified by its `statusId`.
 */
module Records {
  import opened Wrappers

  /** A party the MK currently belongs to. */
  datatype Party = Party(id: int, name: string)

  /** A member of Knesset: the persona's `content_object`. */
  datatype Mk = Mk(id: int, name: string, gender: string, ageYears: int, currentParty: Party)

  /** The attachment of a status; `kind` is the platform's type string ("photo", "link", ...). */
  datatype Attachment = Attachment(kind: string)

  /** A status (post) of a feed. */
  datatype Status = Status(
    statusId: string,
    content: string,
    link: string,
    published: int,              // seconds
    attachment: Option<Attachment>,
    numComments: nat)            // how many comments the status has

  /** A feed: its id, the persona's MK (None when the persona has no object) and its statuses. */
  datatype Feed = Feed(id: int, persona: Option<Mk>, statuses: seq<Status>)

  /**
   * A commentator: the platform id, the parent status id of each comment they wrote
   * (one entry per comment) and the status id of each like they gave (one entry per like).
   */
  datatype Commentator = Commentator(facebookId: string, commentParents: seq<string>, likedStatuses: seq<string>)

  /**
   * A comment, with its parent status, the feed the parent belongs to and its
   * author.  The relation between `parent` and `feed` is not built into the type;
   * `Features.WellFormed` states it.
   */
  datatype Comment = Comment(
    commentId: string,
    content: string,
    published: int,              // seconds
    likeCount: int,
    commentCount: int,
    contentLang: string,         // the comment's own stored language
    parent: Status,
    feed: Feed,
    author: Commentator)

  /** Why a row, or the whole export, cannot be produced. */
  datatype ExportError =
    | MissingPersona             // the feed's persona has no MK object (attribute access on None)
    | ZeroDivision               // a ratio over a feed with no statuses
    | NotAMapping                // a row that is None handed to the CSV writer
    | UnknownFields(fields: set<string>)  // a row with keys outside the schema
}
