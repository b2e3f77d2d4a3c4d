# php-msgraph in Dafny

A Dafny model of the outbound mail path of the `PL2010\MsGraph` PHP library.
The library sends a Symfony MIME e-mail through the Microsoft Graph
"send mail" endpoint. The model covers three parts:

- **Message builder** (`MsGraphMessageBuilder`, module `MessageBuilder`). It
  translates a parsed e-mail into the Graph message object. It picks the body
  content type from the text subtype, ignoring case. It projects the from,
  sender, to, cc, bcc and reply-to addresses and the subject. It renders the
  date as a UTC `date-time` ending in `Z`. A top-level media type other than
  text or multipart is rejected.
- **Client** (`MsGraphClient`, module `GraphClient`). It fills in
  configuration defaults and binds the token repository lazily. It looks up
  the access token, prepares the request (with a timeout only when one is
  configured) and posts `{message, saveToSentItems}` to `/me/sendMail`. A
  send succeeds only on status 202.
- **Manager** (`MsGraphManager`, module `GraphManager`). It is a registry of
  named configurations in insertion order. It resolves a name to the given
  name, else the default, else the first registered one. It builds each
  client once, on its first lookup. `sendEmail` goes through the default
  client.

Supporting modules:

- `UtcDate`: Gregorian calendar arithmetic. It proves the bijection between
  epoch seconds and valid UTC dates and times, and that the `Y-m-d\TH:i:sp`
  rendering round-trips through a parser.
- `OrderedMap`: PHP string-keyed arrays. Assignment keeps a key's position;
  `array_merge` is modelled too.
- `Php`: configuration values and PHP truthiness.
- `Decimal`: integer to decimal text.
- `Ascii`: `strtolower`.
- `Mime`: the parsed e-mail.
- `Json`: the posted body.
- `Wrappers`: `Option` and `Result`.

The outside world is passed in as parameters. An `Env` record gives what
invoking a callable returns and the token record a repository hands out. A
`transport` function gives the HTTP status answered to a posted request. The
error logger is the list of messages an operation logs, returned with its
result.

The model follows the code:

- A multipart body gets no `body` key and an empty `attachments` list. There
  is no multipart/alternative selection and no attachment rendering.
- A text body is `html` only when its own subtype is `html` in any case. The
  configured `text_subtype` that `sendEmail` passes is ignored by the builder.
- An unsupported top-level body fails with "unsupported email media type:
  <type>".
- A missing token repository is logged; a missing access token with a bound
  repository is not. Either way the request is prepared with a null token and
  handed to the transport, which decides the status.

## Model

| member | source | states |
|---|---|---|
| MessageBuilder.BuildMessage | src/Concerns/MsGraphMessageBuilder.php:43-94 | Translation fails exactly when the top-level media type is neither "text" nor "multipart", with error text "unsupported email media type: " and that type. A text body gives `{contentType, content}` with "html" exactly for case variants of "html", and no attachments. A multipart body gives no body and an empty attachment list. Headers are projected as in `ProjectsHeaders`. |
| MessageBuilder.BodyFields | src/Concerns/MsGraphMessageBuilder.php:46-62 | The body/attachments keys per top-level media type, and the unsupported-media-type error for any other type |
| MessageBuilder.WithHeaders | src/Concerns/MsGraphMessageBuilder.php:64-91 | `from` is present iff the from-list is non-empty and comes from its first address. `sender` and `createdDateTime` are present iff set. `createdDateTime` parses back to the date's timestamp. Each recipient list mirrors its address list. The subject is copied verbatim. |
| MessageBuilder.RecipientOf | src/Concerns/MsGraphMessageBuilder.php:101-108 | The recipient object gives back exactly the name and address it was made from |
| MessageBuilder.Recipients | src/Concerns/MsGraphMessageBuilder.php:74-75 | Same length as the address list; element i gives back address i |
| MessageBuilder.RecipientList | src/Concerns/MsGraphMessageBuilder.php:73-88 | The key is present iff the address list is non-empty, never as an empty list. Its length and order follow the input. |
| MessageBuilder.HtmlCaseInsensitive | src/Concerns/MsGraphMessageBuilder.php:50-52 | Lower-casing the subtype yields "html" exactly for the 16 upper/lower-case spellings of "html" |
| MessageBuilder.DateTimeOffset | src/Concerns/MsGraphMessageBuilder.php:32-36 | The rendered string parses back to the date's timestamp |
| MessageBuilder.CreatedDateTimeIsUtc | src/Concerns/MsGraphMessageBuilder.php:70-72 | The built message does not depend on the date's UTC offset. `createdDateTime` is the UTC rendering of the instant. |
| MessageBuilder.CreatedDateTimeExample | src/Concerns/MsGraphMessageBuilder.php:70-72 | A text e-mail dated 2014-01-01T00:00:00+02:00 gets `createdDateTime` "2013-12-31T22:00:00Z" |
| MessageBuilder.MessageJson | src/Concerns/MsGraphMessageBuilder.php:44-93 | The JSON object's member names are exactly the keys the message has, in the order the builder adds them (body, attachments, from, sender, createdDateTime, toRecipients, ccRecipients, bccRecipients, replyTo, subject) |
| MessageBuilder.Members | src/Concerns/MsGraphMessageBuilder.php:49-90 | Each member carries a key the message has, with that key's JSON value, keys in table order |
| UtcDate.Format | src/Concerns/MsGraphMessageBuilder.php:35 | The rendering has `T` as the date/time separator and ends in `Z`. It is at least 20 characters, and exactly 20 for years 0 to 9999. |
| UtcDate.YearText | src/Concerns/MsGraphMessageBuilder.php:35 | The `Y` field reads back as the year. It starts with `-` exactly for negative years. Its digits are zero-padded to four and have no leading zero beyond that, so years 0 to 9999 give exactly four digits. |
| UtcDate.TwoDigits | src/Concerns/MsGraphMessageBuilder.php:35 | The `m`, `d`, `H`, `i` and `s` fields are two digits and read back as the value |
| UtcDate.TimeTail | src/Concerns/MsGraphMessageBuilder.php:35 | Everything after the year is 16 characters, with `T` at position 6 and `Z` last |
| UtcDate.ToCivilValid | src/Concerns/MsGraphMessageBuilder.php:33-34 | Every timestamp maps to a real UTC date and time: month 1-12, day within the month (29 February only in leap years), hour < 24, minute and second < 60 |
| UtcDate.FromToCivil | src/Concerns/MsGraphMessageBuilder.php:33-34 | Reassembling a timestamp's date and time gives back the timestamp |
| UtcDate.ToFromCivil | src/Concerns/MsGraphMessageBuilder.php:33-34 | Converting a real date and time to a timestamp and back gives the same date and time |
| UtcDate.DateRoundTrip | src/Concerns/MsGraphMessageBuilder.php:33-34 | Day counting and date recovery are inverse for every real date |
| UtcDate.YearOfEra | src/Concerns/MsGraphMessageBuilder.php:33-34 | The year found for a day of a 400-year cycle is the one whose days contain it |
| UtcDate.YearLength | src/Concerns/MsGraphMessageBuilder.php:33-34 | A March-based year has 366 days exactly when the calendar year it ends in is a leap year |
| UtcDate.ParseFormat | src/Concerns/MsGraphMessageBuilder.php:35 | Parsing the rendering of any timestamp gives back that timestamp |
| UtcDate.FormatInjective | src/Concerns/MsGraphMessageBuilder.php:35 | Different timestamps render to different strings |
| UtcDate.ParseSound | src/Concerns/MsGraphMessageBuilder.php:35 | A parsed string named a real date and time, and the parsed timestamp breaks down into exactly those fields |
| UtcDate.FormatExamples | src/Concerns/MsGraphMessageBuilder.php:30 | 1388534400 renders as "2014-01-01T00:00:00Z". Two hours earlier renders as "2013-12-31T22:00:00Z". |
| Decimal.IntToString | src/MsGraphClient.php:112 | The status text in the log message reads back as the status. It is PHP's spelling: `-` exactly for negative numbers, and no leading zeros. |
| OrderedMap.Put | src/MsGraphManager.php:38 | Assigning a key sets its value and leaves all other keys' values alone. An existing key keeps its position; a new key is appended. |
| OrderedMap.Get | src/MsGraphManager.php:51 | Lookup finds a value exactly for registered keys, and finds the value stored under that key |
| OrderedMap.Merge | src/MsGraphClient.php:39-43 | `array_merge`: the second array's values win, the first array's keys keep their order, and the second array's new keys follow in order |
| OrderedMap.MergeHas | src/MsGraphClient.php:39-43 | The merged array has exactly the keys of both arrays |
| GraphClient.NewClient | src/MsGraphClient.php:23-44 | The name is kept and the configuration defaults are applied (`DefaultsApplied`). The token slot is the `token_repo` option when given: bound for a repository, a resolver for a closure. Otherwise it is the factory-calling closure. |
| GraphClient.MergeDefaults | src/MsGraphClient.php:39-43 | `token_key` defaults to the name, `token_ttl` to 120 and `text_subtype` to "html". Caller values win and other keys are kept. The three default keys come first. |
| GraphClient.TokenRepository | src/MsGraphClient.php:65-78 | A bound repository is returned without resolving or logging. Otherwise the resolver's answer for `token_key` is returned. Success binds it without logging. Failure logs exactly "no token repository for MSGraphClient: <name>" and leaves the client unchanged. |
| GraphClient.ResolutionIsCached | src/MsGraphClient.php:72-74 | After a successful resolution, later lookups return the same repository without calling the resolver or logging, whatever the environment |
| GraphClient.FailedResolutionIsRetried | src/MsGraphClient.php:72-77 | After a failed resolution, the next lookup behaves exactly like a first attempt |
| GraphClient.AccessToken | src/MsGraphClient.php:50-59 | No repository gives no token. Otherwise the result is the `access_token` entry of the repository's token for (`token_key`, `token_ttl`), or none when that entry or the token is missing. |
| GraphClient.PrepareRequest | src/MsGraphClient.php:84-94 | The request carries the method, endpoint and access token. It has a timeout iff `timeout` is configured and truthy, and then it is that value. |
| GraphClient.SendEmail | src/MsGraphClient.php:99-115 | An untranslatable e-mail fails before anything is posted or logged. Otherwise one POST to `/me/sendMail` with body `{message, saveToSentItems}` is made. It succeeds iff the status is 202. Any other status adds one log message naming the status and fails with that status. |
| GraphClient.SendLogsOnlyFailures | src/MsGraphClient.php:110-114 | With the repository bound, a send logs nothing on 202 and exactly one message naming the status otherwise |
| GraphManager.NewManager | src/MsGraphManager.php:16-28 | A new registry is empty, has no default and satisfies the default-is-registered invariant |
| GraphManager.ConfigureDispatch | src/MsGraphManager.php:33-42 | Stores the configuration under the name, replacing any entry including a built client. Other entries and the key order stay; a new name is appended. The default becomes the name iff requested. The invariant is kept. |
| GraphManager.ResolveName | src/MsGraphManager.php:48-50 | The given name, else the default, else the first registered name. None only when no name is given and the registry is empty. |
| GraphManager.GetClient | src/MsGraphManager.php:47-58 | Returns nothing, with nothing changed, when no entry exists under the resolved name. A built client is returned as is. A configuration is replaced by the client built from (name, configuration, options). Keys, order, default and other entries are unchanged. |
| GraphManager.GetClientMemoises | src/MsGraphManager.php:51-57 | A second lookup of the same name returns the client of the first and changes nothing |
| GraphManager.SendViaDefault | src/MsGraphManager.php:60-62 | Sends through the client that a lookup with no name finds, with that client's log and outcome. The client's new state is kept in its slot; every other slot, the key order, the default and the options are unchanged. With no such client it fails without logging and changes nothing. |
| Decimal.IntTextUnique | src/MsGraphClient.php:112 | Every PHP integer spelling is the one IntToString gives its value: the log text of a status is unique |
| Decimal.DigitsOfValue | src/MsGraphClient.php:112 | No two leading-zero-free digit strings denote the same number |
| UtcDate.ParseParts | src/Concerns/MsGraphMessageBuilder.php:35 | The year text followed by the fixed tail parses back to the instant of the date and time rendered |
| GraphClient.Resolve | src/MsGraphClient.php:30-37 | The constructor's closure calls `token_repo_factory` with `token_key` when that setting is callable, and yields nothing otherwise. A closure given as `token_repo` is called with `token_key`. |
| MessageBuilder.Attachments | src/Concerns/MsGraphMessageBuilder.php:22-25 | The attachment builder is a stub: every multipart body gets an empty attachment list |

## Left out

- `MsGraphDispatch` (src/Contracts/MsGraphDispatch.php) is an interface only. Both the client and the manager expose `SendEmail` directly.
- Laravel wiring (src/Laravel/MsGraphServiceProvider.php and src/Laravel/Facades/MsGraph.php): container bindings, facade alias and mail-transport registration have no logic of their own.
- Microsoft Graph SDK HTTP machinery (`Graph`, `createRequest`, `attachBody`, `execute`): foreign network I/O. A request is a record, and its answer is the status a `transport` parameter gives. Exceptions the SDK itself may throw are not modelled.
- Token repository internals (`getOAuth2Token` caching and refresh): external. `Env.token` gives the token record.
- Symfony MIME parsing, `Email::getBody()` body generation and `bodyToString` encoding: the e-mail arrives parsed, with the body content already a string.
- Attachment rendering and multipart/alternative selection: not present in the code, whose attachment builder is a stub returning the empty list.
- The logger callback (`error_log` option, PHP `error_log`): replaced by the list of logged messages.
- The `MsGraphManager` class and its methods: they only update a `GraphManager.Manager` state through the functions above. They are stated with `old()` and are not listed in the table.
- PHP's conversion of numeric-string array keys to integers: not modelled. Registry names and configuration keys stay strings.
- Strings that name a function, which PHP treats as callable: not modelled. Only `Callable` values are callable in the model.
- Floating-point configuration values, such as a fractional `timeout`: not modelled. Only the values `Php.Value` lists are.
- UtcDate.Format: its own `ensures` give only the shape and width of the text. The spelling of the year is stated on `YearText` and of the other fields on `TwoDigits` and `TimeTail`; that the text denotes the instant is stated by `ParseFormat` and `ParseSound`.
- GraphClient.SendEmail: the request is handed to `transport` even when the access token is null. What the Graph SDK does with a null token is outside the model; it may throw before anything is sent.
- GraphManager.GetClient: the client is returned as a value, while PHP returns the object stored in the registry. A token repository that a caller resolves through that client is therefore not seen by later lookups in the model. `SendViaDefault` stores the client's new state back itself, so the manager's own `sendEmail` keeps it.
