/**
 * The five attachment-type columns of the second-stage export (POST_WITH_PHOTO,
 * POST_WITH_LINK, POST_WITH_VIDEO, POST_WITH_STATUS, POST_WITH_TEXT_ONLY),
 * derived from the parent status's optional attachment.
 */
module Attachments {
  import opened Wrappers
  import opened Records

  /** The attachment types that have a column of their own. */
  const KnownKinds: seq<string> := ["photo", "link", "video", "status"]

  datatype AttachmentFlags = AttachmentFlags(photo: bool, link: bool, video: bool, status: bool, textOnly: bool)
  {
    /** How many of the five flags are set. */
    function Count(): nat
    {
      (if photo then 1 else 0) + (if link then 1 else 0) + (if video then 1 else 0)
        + (if status then 1 else 0) + (if textOnly then 1 else 0)
    }
  }

  /** The status has an attachment of the given type. */
  predicate HasAttachmentOfKind(attachment: Option<Attachment>, kind: string)
  {
    attachment.Some? && attachment.value.kind == kind
  }

  /**
   * The flags of a status: TEXT_ONLY exactly when there is no attachment; at most one
   * flag is set; exactly one when there is no attachment or it is a photo, link, video
   * or status; none at all for any other attachment type.
   */
  function GetAttachmentFlags(attachment: Option<Attachment>): (f: AttachmentFlags)
    ensures f.textOnly <==> attachment.None?
    ensures f.photo ==> attachment == Some(Attachment("photo"))
    ensures f.link ==> attachment == Some(Attachment("link"))
    ensures f.video ==> attachment == Some(Attachment("video"))
    ensures f.status ==> attachment == Some(Attachment("status"))
    ensures f.Count() <= 1
    ensures f.Count() == 1 <==> attachment.None? || attachment.value.kind in KnownKinds
    ensures f.Count() == 0 <==> attachment.Some? && attachment.value.kind !in KnownKinds
  {
    AttachmentFlags(
      HasAttachmentOfKind(attachment, "photo"),
      HasAttachmentOfKind(attachment, "link"),
      HasAttachmentOfKind(attachment, "video"),
      HasAttachmentOfKind(attachment, "status"),
      !attachment.Some?)
  }
}
