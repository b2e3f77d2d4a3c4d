/** The already-parsed e-mail the translator reads: only the parts of a
    Symfony MIME `Email` that the message builder looks at. */
module Mime {
  import opened Wrappers

  /** A mailbox: display name (possibly empty) and address. */
  datatype Address = Address(name: string, address: string)

  /** A body part, told apart by its top-level media type. */
  datatype Part =
    | Text(subtype: string, content: string)  // text/<subtype>; content is the decoded body
    | Multipart(subtype: string)               // multipart/<subtype>; its parts are never read
    | Other(mediaType: string)                 // any other top-level media type

  /** A part whose constructor agrees with its media type: a text or
      multipart part is never an `Other`. */
  type Body = p: Part | !p.Other? || (p.mediaType != "text" && p.mediaType != "multipart")
    witness Multipart("mixed")

  /** A point in time together with the UTC offset it was written in. */
  datatype DateTime = DateTime(timestamp: int, utcOffset: int)

  datatype Email = Email(
    sender: Option<Address>,
    from: seq<Address>,
    to: seq<Address>,
    cc: seq<Address>,
    bcc: seq<Address>,
    replyTo: seq<Address>,
    subject: Option<string>,
    date: Option<DateTime>,
    body: Body)

  /** The top-level media type of a body part, as `getMediaType()` reports it. */
  function MediaType(b: Body): string {
    match b
    case Text(_, _) => "text"
    case Multipart(_) => "multipart"
    case Other(t) => t
  }
}
