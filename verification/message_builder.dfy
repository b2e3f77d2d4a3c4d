/** Translation of a parsed e-mail into the message object of the Microsoft
    Graph "send mail" request (the `MsGraphMessageBuilder` trait). */
module MessageBuilder {
  import opened Wrappers
  import opened Mime
  import opened Json
  import opened Ascii
  import UtcDate
  import OrderedMap

  datatype EmailAddress = EmailAddress(name: string, address: string)

  /** `{emailAddress: {name, address}}` */
  datatype Recipient = Recipient(emailAddress: EmailAddress)

  /** `{contentType, content}` */
  datatype ItemBody = ItemBody(contentType: string, content: string)

  /** The message object; an absent field is a key the array never gets.
      Fields are listed in the order the builder adds their keys. */
  datatype GraphMessage = GraphMessage(
    body: Option<ItemBody>,
    attachments: Option<seq<Json>>,
    from: Option<Recipient>,
    sender: Option<Recipient>,
    createdDateTime: Option<string>,
    toRecipients: Option<seq<Recipient>>,
    ccRecipients: Option<seq<Recipient>>,
    bccRecipients: Option<seq<Recipient>>,
    replyTo: Option<seq<Recipient>>,
    subject: Option<string>)

  /** The `InvalidArgumentException` raised for a body that is neither text
      nor multipart. */
  datatype BuildError = UnsupportedMediaType(mediaType: string)

  function ErrorMessage(e: BuildError): string {
    "unsupported email media type: " + e.mediaType
  }

  /** A recipient object for one address, copying both parts unchanged. */
  function RecipientOf(a: Address): (r: Recipient)
    ensures AddressOf(r) == a
  {
    Recipient(EmailAddress(a.name, a.address))
  }

  /** The address a recipient object was made from. */
  function AddressOf(r: Recipient): Address {
    Address(r.emailAddress.name, r.emailAddress.address)
  }

  /** One recipient object per address, in the same order. */
  function Recipients(addrs: seq<Address>): (rs: seq<Recipient>)
    ensures |rs| == |addrs|
    ensures forall i :: 0 <= i < |addrs| ==> AddressOf(rs[i]) == addrs[i]
  {
    if |addrs| == 0 then [] else [RecipientOf(addrs[0])] + Recipients(addrs[1..])
  }

  /** A recipient-list key: absent for an empty address list, never an empty
      list. */
  function RecipientList(addrs: seq<Address>): (r: Option<seq<Recipient>>)
    ensures Mirrors(r, addrs)
  {
    if |addrs| == 0 then None else Some(Recipients(addrs))
  }

  /** The attachment list of a multipart body. The builder has no attachment
      rendering yet and always answers with the empty list. */
  function Attachments(multipartSubtype: string): (a: seq<Json>)
    ensures |a| == 0
  {
    []
  }

  /** `msGraphDateTimeOffset`: the instant rendered in UTC; the offset the
      date was written in plays no part. */
  function DateTimeOffset(dt: DateTime): (s: string)
    ensures UtcDate.Parse(s) == Some(dt.timestamp)
  {
    UtcDate.ParseFormat(dt.timestamp);
    UtcDate.Format(dt.timestamp)
  }

  /** The content type chosen for a text body: "html" when the subtype is
      "html" in any letter case, "text" otherwise. */
  function ContentType(subtype: string): string {
    if ToLower(subtype) == "html" then "html" else "text"
  }

  /** The body and attachments keys for the top-level body part, or the
      error for a media type the builder does not handle. */
  function BodyFields(b: Body): (r: Result<(Option<ItemBody>, Option<seq<Json>>), BuildError>)
    ensures r.Failure? <==> MediaType(b) != "text" && MediaType(b) != "multipart"
    ensures r.Failure? ==> r.error == UnsupportedMediaType(MediaType(b))
    ensures b.Text? ==>
      r == Success((Some(ItemBody(if IsHtmlSpelling(b.subtype) then "html" else "text", b.content)), None))
    ensures b.Multipart? ==> r == Success((None, Some([])))
  {
    match b
    case Text(subtype, content) =>
      HtmlCaseInsensitive(subtype);
      Success((Some(ItemBody(ContentType(subtype), content)), None))
    case Multipart(subtype) => Success((None, Some(Attachments(subtype))))
    case Other(t) => Failure(UnsupportedMediaType(t))
  }

  /** The message with the given body fields and the e-mail's header fields. */
  function WithHeaders(e: Email, body: Option<ItemBody>, attachments: Option<seq<Json>>): (m: GraphMessage)
    ensures m.body == body && m.attachments == attachments
    ensures ProjectsHeaders(m, e)
  {
    GraphMessage(
      body,
      attachments,
      if |e.from| > 0 then Some(RecipientOf(e.from[0])) else None,
      match e.sender case Some(a) => Some(RecipientOf(a)) case None => None,
      match e.date case Some(dt) => Some(DateTimeOffset(dt)) case None => None,
      RecipientList(e.to),
      RecipientList(e.cc),
      RecipientList(e.bcc),
      RecipientList(e.replyTo),
      e.subject)
  }

  /** `msGraphMessage`: the message object for an e-mail, or the error for a
      body it cannot translate. */
  function BuildMessage(e: Email): (r: Result<GraphMessage, BuildError>)
    ensures r.Failure? <==> MediaType(e.body) != "text" && MediaType(e.body) != "multipart"
    ensures r.Failure? ==> r.error == UnsupportedMediaType(MediaType(e.body))
    ensures r.Failure? ==> ErrorMessage(r.error) == "unsupported email media type: " + MediaType(e.body)
    ensures r.Success? ==> ProjectsHeaders(r.value, e)
    ensures r.Success? && e.body.Text? ==>
      && r.value.body == Some(ItemBody(if IsHtmlSpelling(e.body.subtype) then "html" else "text", e.body.content))
      && r.value.attachments.None?
    ensures r.Success? && e.body.Multipart? ==>
      r.value.body.None? && r.value.attachments == Some([])
  {
    var (body, attachments) :- BodyFields(e.body);
    Success(WithHeaders(e, body, attachments))
  }

  /** A recipient-list field mirrors its address list: present exactly when
      the list is non-empty, of the same length, element i made from address i. */
  predicate Mirrors(field: Option<seq<Recipient>>, addrs: seq<Address>) {
    && (field.Some? <==> |addrs| > 0)
    && (field.Some? ==>
         && |field.value| == |addrs|
         && forall i :: 0 <= i < |addrs| ==> AddressOf(field.value[i]) == addrs[i])
  }

  /** The header fields of a built message, whatever the body. */
  predicate ProjectsHeaders(m: GraphMessage, e: Email) {
    && (m.from.Some? <==> |e.from| > 0)
    && (m.from.Some? ==> AddressOf(m.from.value) == e.from[0])
    && (m.sender.Some? <==> e.sender.Some?)
    && (m.sender.Some? ==> AddressOf(m.sender.value) == e.sender.value)
    && (m.createdDateTime.Some? <==> e.date.Some?)
    && (m.createdDateTime.Some? ==> UtcDate.Parse(m.createdDateTime.value) == Some(e.date.value.timestamp))
    && Mirrors(m.toRecipients, e.to)
    && Mirrors(m.ccRecipients, e.cc)
    && Mirrors(m.bccRecipients, e.bcc)
    && Mirrors(m.replyTo, e.replyTo)
    && m.subject == e.subject
  }

  /** The spellings of "html" in any mix of upper- and lower-case letters. */
  predicate IsHtmlSpelling(s: string) {
    && |s| == 4
    && (s[0] == 'h' || s[0] == 'H')
    && (s[1] == 't' || s[1] == 'T')
    && (s[2] == 'm' || s[2] == 'M')
    && (s[3] == 'l' || s[3] == 'L')
  }

  /** Lower-casing gives "html" exactly for the case variants of "html". */
  lemma HtmlCaseInsensitive(s: string)
    ensures ToLower(s) == "html" <==> IsHtmlSpelling(s)
  {
    if ToLower(s) == "html" {
      assert LowerChar(s[0]) == 'h' && LowerChar(s[1]) == 't';
      assert LowerChar(s[2]) == 'm' && LowerChar(s[3]) == 'l';
    }
    if IsHtmlSpelling(s) {
      assert ToLower(s) == [LowerChar(s[0]), LowerChar(s[1]), LowerChar(s[2]), LowerChar(s[3])];
    }
  }

  /** Translation looks only at the instant of the date, never at the offset
      it was written in, and renders that instant in UTC. */
  lemma CreatedDateTimeIsUtc(e: Email, utcOffset: int)
    requires e.date.Some?
    ensures var e' := e.(date := Some(DateTime(e.date.value.timestamp, utcOffset)));
      BuildMessage(e') == BuildMessage(e)
    ensures BuildMessage(e).Success? ==>
      BuildMessage(e).value.createdDateTime == Some(UtcDate.Format(e.date.value.timestamp))
  {
  }

  /** 2014-01-01T00:00:00+02:00 is sent as 2013-12-31T22:00:00Z. */
  lemma CreatedDateTimeExample(e: Email)
    requires e.date == Some(DateTime(1388534400 - 7200, 7200))
    requires e.body.Text?
    ensures BuildMessage(e).value.createdDateTime == Some("2013-12-31T22:00:00Z")
  {
    UtcDate.FormatExamples(1388534400);
  }

  // ---- JSON rendering of the message object

  /** The keys of a message object in the order the builder adds them. */
  const MessageKeys: seq<string> :=
    ["body", "attachments", "from", "sender", "createdDateTime",
     "toRecipients", "ccRecipients", "bccRecipients", "replyTo", "subject"]

  /** Whether the message has a value for key `k`. */
  predicate Present(m: GraphMessage, k: string) {
    if k == "body" then m.body.Some?
    else if k == "attachments" then m.attachments.Some?
    else if k == "from" then m.from.Some?
    else if k == "sender" then m.sender.Some?
    else if k == "createdDateTime" then m.createdDateTime.Some?
    else if k == "toRecipients" then m.toRecipients.Some?
    else if k == "ccRecipients" then m.ccRecipients.Some?
    else if k == "bccRecipients" then m.bccRecipients.Some?
    else if k == "replyTo" then m.replyTo.Some?
    else if k == "subject" then m.subject.Some?
    else false
  }

  /** The keys of `keys` the message has a value for, in order. */
  function PresentKeys(m: GraphMessage, keys: seq<string>): seq<string> {
    if |keys| == 0 then []
    else (if Present(m, keys[0]) then [keys[0]] else []) + PresentKeys(m, keys[1..])
  }

  function RecipientJson(r: Recipient): Json {
    JObject([("emailAddress", JObject([
      ("name", JString(r.emailAddress.name)),
      ("address", JString(r.emailAddress.address))]))])
  }

  function RecipientsJson(rs: seq<Recipient>): (j: Json)
    ensures j.JArray? && |j.items| == |rs|
    ensures forall i :: 0 <= i < |rs| ==> j.items[i] == RecipientJson(rs[i])
  {
    JArray(seq(|rs|, i requires 0 <= i < |rs| => RecipientJson(rs[i])))
  }

  /** The JSON value of a key the message has. */
  function ValueJson(m: GraphMessage, k: string): Json
    requires Present(m, k)
  {
    if k == "body" then
      JObject([("contentType", JString(m.body.value.contentType)), ("content", JString(m.body.value.content))])
    else if k == "attachments" then JArray(m.attachments.value)
    else if k == "from" then RecipientJson(m.from.value)
    else if k == "sender" then RecipientJson(m.sender.value)
    else if k == "createdDateTime" then JString(m.createdDateTime.value)
    else if k == "toRecipients" then RecipientsJson(m.toRecipients.value)
    else if k == "ccRecipients" then RecipientsJson(m.ccRecipients.value)
    else if k == "bccRecipients" then RecipientsJson(m.bccRecipients.value)
    else if k == "replyTo" then RecipientsJson(m.replyTo.value)
    else JString(m.subject.value)
  }

  /** One member per key of `keys` that the message has, in the order of `keys`. */
  function Members(m: GraphMessage, keys: seq<string>): (ms: seq<(string, Json)>)
    ensures OrderedMap.Keys(ms) == PresentKeys(m, keys)
    ensures forall i :: 0 <= i < |ms| ==> Present(m, ms[i].0) && ms[i].1 == ValueJson(m, ms[i].0)
  {
    if |keys| == 0 then []
    else
      var rest := Members(m, keys[1..]);
      var ms := (if Present(m, keys[0]) then [(keys[0], ValueJson(m, keys[0]))] else []) + rest;
      assert OrderedMap.Keys(ms) == (if Present(m, keys[0]) then [keys[0]] else []) + OrderedMap.Keys(rest);
      ms
  }

  /** The message object as the JSON object posted: its member names are the
      keys the message has, in the order the builder adds them. */
  function MessageJson(m: GraphMessage): (j: Json)
    ensures j.JObject?
    ensures OrderedMap.Keys(j.members) == PresentKeys(m, MessageKeys)
  {
    JObject(Members(m, MessageKeys))
  }
}
