# Contact-form mail function, modelled in Dafny

The model covers `netlify/functions/send-email.js` of the BU Magdeburg website: the serverless
function that takes the contact form, checks it, and hands a notification mail to the Resend API.
It models and proves properties of:

- `isValidEmail`, the `local@domain.tld` shape check;
- `escapeHtml`, the replacement of `& < > " '` by entities;
- the decision chain of `handler`:
  - 405 for a method other than POST;
  - 500 for missing configuration;
  - normalisation of the fields;
  - the four 400 rules, in order;
- the composition of the subject, the plain-text body and the HTML body;
- the mapping of the provider's answer to 200, 502 or 500.

Modules:

- `Text`: JavaScript's whitespace set, shared by `trim` and the regular-expression class `\s`. The set is the
  full, finite set of WhiteSpace and LineTerminator code points. Also `trim`, and `length` counted in
  UTF-16 code units.
- `Email`: the regular expression `^[^\s@]+@[^\s@]+\.[^\s@]+$` is read as "there are split points
  for `@` and `.`". It is proved equal to the shape description: no whitespace, exactly one `@`,
  a non-empty local part, and a `.` inside the domain.
- `Html`: `escapeHtml` and its inverse. The escapes are exactly the safe strings. The
  newline-to-`<br>` step is also here; after it the only markup left is `<br>`.
- `Links`: the scanning count of `/https?:\/\//gi`. It equals the number of positions where a
  match starts, and it ignores case.
- `Compose`: the subject and both bodies. The layout of the template literals is kept exactly.
  A reader for the HTML body shows that every field can be recovered from it. Every `<` in the
  HTML body opens one of the template's own tags, so no `<script>` can start in it.
- `Handler`: the decision before the provider call (`Decide`), the request that reaches the
  provider (`Outbound`), and the final response (`Handle`). The provider's answer is a parameter.

## Model

All source paths are in `bu-magdeburg/netlify/functions/send-email.js`.

| member | source | states |
|---|---|---|
| Text.IsWhitespace | bu-magdeburg/netlify/functions/send-email.js:27-30 | on ASCII, the whitespace of `trim` and `\s` is exactly space, tab, line feed, vertical tab, form feed and carriage return |
| Text.TrimStart | bu-magdeburg/netlify/functions/send-email.js:27-30 | the result is a suffix of the input, everything dropped is whitespace, and the result does not start with whitespace |
| Text.TrimEnd | bu-magdeburg/netlify/functions/send-email.js:27-30 | the result is a prefix of the input, everything dropped is whitespace, and the result does not end with whitespace |
| Text.Trim | bu-magdeburg/netlify/functions/send-email.js:27-30 | `.trim()` leaves a string with no whitespace at either end and no longer than its input |
| Text.TrimOnlyRemovesWhitespace | bu-magdeburg/netlify/functions/send-email.js:27-30 | what `.trim()` leaves is a slice of the input with only whitespace on either side |
| Text.TrimStartOfWhitespace | bu-magdeburg/netlify/functions/send-email.js:27-30 | leading whitespace in front of a non-whitespace start is removed entirely and nothing more |
| Text.TrimEndOfWhitespace | bu-magdeburg/netlify/functions/send-email.js:27-30 | trailing whitespace after a non-whitespace end is removed entirely and nothing more |
| Text.TrimExactly | bu-magdeburg/netlify/functions/send-email.js:27-30 | trimming whitespace + m + whitespace gives exactly m when m has no whitespace at its ends |
| Text.TrimKeepsTrimmed | bu-magdeburg/netlify/functions/send-email.js:27-30 | `.trim()` is the identity on strings without whitespace at either end |
| Text.TrimIdempotent | bu-magdeburg/netlify/functions/send-email.js:27-30 | trimming twice equals trimming once |
| Text.Utf16Length | bu-magdeburg/netlify/functions/send-email.js:40 | `message.length` is between the number of characters and twice that, and equals it when every character is in the Basic Multilingual Plane |
| Text.Utf16LengthOfChar | bu-magdeburg/netlify/functions/send-email.js:40 | one character counts one code unit inside the Basic Multilingual Plane and two (a surrogate pair) outside it |
| Text.Utf16LengthAppend | bu-magdeburg/netlify/functions/send-email.js:40 | the count adds up over a concatenation, so `length` is the sum of 1 per BMP character and 2 per other character |
| Email.IsValidEmail | bu-magdeburg/netlify/functions/send-email.js:4-6 | an accepted string has at least five characters and neither starts nor ends with `@` |
| Email.Count | bu-magdeburg/netlify/functions/send-email.js:5 | the number of occurrences is at most the length, and zero exactly when the character is absent |
| Email.IndexOf | bu-magdeburg/netlify/functions/send-email.js:5 | the index is that of the first occurrence |
| Email.CountAppend | bu-magdeburg/netlify/functions/send-email.js:5 | occurrence counts add up over a concatenation |
| Email.CountAround | bu-magdeburg/netlify/functions/send-email.js:5 | the count splits around a known occurrence |
| Email.ValidEmailFromParts | bu-magdeburg/netlify/functions/send-email.js:4-6 | any non-empty runs of non-whitespace, non-`@` characters joined as `local@domain.tld` pass `isValidEmail` |
| Email.ValidEmailIsAddressShaped | bu-magdeburg/netlify/functions/send-email.js:4-6 | an accepted address has no whitespace, exactly one `@` that is not first, and a `.` strictly inside the part after it |
| Email.AddressShapedIsValid | bu-magdeburg/netlify/functions/send-email.js:4-6 | every string of that shape is accepted |
| Email.ValidEmailCharacterization | bu-magdeburg/netlify/functions/send-email.js:4-6 | `isValidEmail` holds if and only if the string has the shape above |
| Html.EscapeChar | bu-magdeburg/netlify/functions/send-email.js:10 | exactly the five markup characters are replaced, each by an entity that starts with `&` and ends with `;`; every other character stays itself |
| Html.EscapedAppend | bu-magdeburg/netlify/functions/send-email.js:10 | the concatenation of two safe strings is safe |
| Html.EscapedSuffix | bu-magdeburg/netlify/functions/send-email.js:10 | a suffix of a safe string is safe |
| Html.EscapeCharEscaped | bu-magdeburg/netlify/functions/send-email.js:10 | each replacement of the table is safe and one to six characters long |
| Html.Escape | bu-magdeburg/netlify/functions/send-email.js:9-11 | the output of `escapeHtml` has no `<`, `>`, `"` or `'`, every `&` in it starts one of the five entities, and it is one to six times as long as the input |
| Html.UnescapeHead | bu-magdeburg/netlify/functions/send-email.js:10 | decoding undoes the replacement of one leading character |
| Html.UnescapeEntityHead | bu-magdeburg/netlify/functions/send-email.js:10 | decoding undoes the entity of one leading markup character |
| Html.UnescapeEscape | bu-magdeburg/netlify/functions/send-email.js:9-11 | decoding the output of `escapeHtml` gives the input back, so every character is kept in order |
| Html.EscapeUnescape | bu-magdeburg/netlify/functions/send-email.js:9-11 | every safe string is the output of `escapeHtml` for its decoding, so the outputs are exactly the safe strings |
| Html.DecodeEntity | bu-magdeburg/netlify/functions/send-email.js:10 | the previous property for a safe string that starts with an entity |
| Html.EscapePlain | bu-magdeburg/netlify/functions/send-email.js:9-11 | `escapeHtml` is the identity on strings without the five markup characters |
| Html.BreakLines | bu-magdeburg/netlify/functions/send-email.js:67 | `.replace(/\n/g, "<br>")` leaves no newline |
| Html.UnbreakBreak | bu-magdeburg/netlify/functions/send-email.js:67 | on text without `<`, reading each `<br>` back as a newline undoes the replacement |
| Html.OnlyBreakTagsSuffix | bu-magdeburg/netlify/functions/send-email.js:67 | a suffix of text whose only markup is `<br>` has that property too |
| Html.BreakLinesKeepsPrefix | bu-magdeburg/netlify/functions/send-email.js:67 | a newline-free prefix survives the `<br>` step |
| Html.BreakLinesEntityAtStart | bu-magdeburg/netlify/functions/send-email.js:67 | an entity at the start survives the `<br>` step |
| Html.OnlyBreakTagsShift | bu-magdeburg/netlify/functions/send-email.js:67 | positions in the tail keep their property after a prefix is added |
| Html.OnlyBreakTagsHead | bu-magdeburg/netlify/functions/send-email.js:67 | the characters produced from the first character have the property |
| Html.BreakLinesOfEscaped | bu-magdeburg/netlify/functions/send-email.js:67 | after `escapeHtml` and the `<br>` step, every `<` opens a `<br>`, there are no quotes, and every `&` starts an entity |
| Html.HtmlMessage | bu-magdeburg/netlify/functions/send-email.js:67 | the message in the HTML body has no newline, and its only markup is `<br>` |
| Html.HtmlMessageRoundTrip | bu-magdeburg/netlify/functions/send-email.js:67 | the message can be recovered exactly from its HTML form |
| Html.NoScriptAt | bu-magdeburg/netlify/functions/send-email.js:67 | text whose only markup is `<br>` has no `<script>` tag at any given position |
| Html.NoScriptTag | bu-magdeburg/netlify/functions/send-email.js:67 | whatever the message, no `<script>` tag starts anywhere in its HTML form |
| Html.OnlyTemplateTagsAppend | bu-magdeburg/netlify/functions/send-email.js:62-69 | text whose every `<` opens a template tag keeps that property under concatenation |
| Html.BreakTagsAreTemplateTags | bu-magdeburg/netlify/functions/send-email.js:67 | text whose only markup is `<br>` uses only template tags |
| Html.NoScriptInTemplate | bu-magdeburg/netlify/functions/send-email.js:62-69 | no `<script>` starts at any position of text whose every `<` opens one of `<h2>`, `<p>`, `<strong>`, `<br>` or their closing tags |
| Links.MatchLength | bu-magdeburg/netlify/functions/send-email.js:44 | a match of `https?:\/\/` has length 7 or 8, starts with `h` or `H` and has a `:` three characters before its end |
| Links.CountLinks | bu-magdeburg/netlify/functions/send-email.js:44 | the global match finds at most one link per seven characters of the message |
| Links.LinkStarts | bu-magdeburg/netlify/functions/send-email.js:44 | the reference count is at most the length |
| Links.MatchInterior | bu-magdeburg/netlify/functions/send-email.js:44 | no `h` occurs inside a match |
| Links.NoStartInsideMatch | bu-magdeburg/netlify/functions/send-email.js:44 | no match starts inside another match |
| Links.CountLinksIsLinkStarts | bu-magdeburg/netlify/functions/send-email.js:44 | the global scan counts exactly the positions where `http://` or `https://` starts, in any case, so matches never overlap |
| Links.Lower | bu-magdeburg/netlify/functions/send-email.js:44 | lower-casing keeps the length and folds every character |
| Links.MatchLengthLower | bu-magdeburg/netlify/functions/send-email.js:44 | a match is found in a string exactly as in its lower-cased form |
| Links.CountLinksIgnoresCase | bu-magdeburg/netlify/functions/send-email.js:44 | the count does not change when the message is lower-cased |
| Links.CountLinksSkipsPlainText | bu-magdeburg/netlify/functions/send-email.js:44 | text without `h` or `H` adds no link |
| Links.CountLinksAfterLink | bu-magdeburg/netlify/functions/send-email.js:44 | a link adds exactly one to the count of what follows it |
| Links.PlainTextCountsNothing | bu-magdeburg/netlify/functions/send-email.js:44 | text without `h` or `H` counts 0 |
| Links.NoColonNoLinks | bu-magdeburg/netlify/functions/send-email.js:44 | text without `:` counts 0 |
| Links.TwoLinksCounted | bu-magdeburg/netlify/functions/send-email.js:44 | two links in plain text count 2, so the rule passes |
| Links.ThreeLinksCounted | bu-magdeburg/netlify/functions/send-email.js:44 | three links in plain text count 3, so the rule rejects |
| Compose.Subject | bu-magdeburg/netlify/functions/send-email.js:48 | the subject is the fixed prefix followed by the name, so the name can be read back from it |
| Compose.PhoneShown | bu-magdeburg/netlify/functions/send-email.js:54 | the phone shown is never empty, and it is the phone number itself whenever one was given |
| Compose.TextLines | bu-magdeburg/netlify/functions/send-email.js:49-59 | the lines of the text template have no whitespace at either end, whatever the fields hold |
| Compose.TextBodyKeepsFields | bu-magdeburg/netlify/functions/send-email.js:49-60 | `.trim()` of the text template removes only its opening and closing newline, never whitespace of a field |
| Compose.StripPrefix | bu-magdeburg/netlify/functions/send-email.js:62-69 | stripping succeeds exactly when the prefix is present, and the result is what follows it |
| Compose.SplitAtSplits | bu-magdeburg/netlify/functions/send-email.js:62-69 | a split gives the input back with the separator in between, at its first occurrence |
| Compose.SplitAtClose | bu-magdeburg/netlify/functions/send-email.js:62-69 | content in which no `</p>` can start ends at the `</p>` that follows it |
| Compose.NoCloseAtStart | bu-magdeburg/netlify/functions/send-email.js:62-69 | no `</p>` starts at the start of content whose only markup is `<br>` |
| Compose.ReadParagraphOf | bu-magdeburg/netlify/functions/send-email.js:62-69 | one paragraph of the body is read back as its content |
| Compose.EscapedHasOnlyBreakTags | bu-magdeburg/netlify/functions/send-email.js:64-66 | escaped fields contain no markup at all |
| Compose.StripPrefixOf | bu-magdeburg/netlify/functions/send-email.js:62-69 | stripping a prefix that is present leaves the rest |
| Compose.ParseHtmlOf | bu-magdeburg/netlify/functions/send-email.js:62-69 | a body built from contents without `</p>` is read back field by field |
| Compose.ReadConsentOf | bu-magdeburg/netlify/functions/send-email.js:68-69 | the consent paragraph reads back as `ja` or `nein` |
| Compose.HtmlRoundTrip | bu-magdeburg/netlify/functions/send-email.js:62-69 | the HTML body gives back name, e-mail, message and consent exactly, and the phone with `-` for an empty one |
| Compose.CaptionTags | bu-magdeburg/netlify/functions/send-email.js:64-68 | the start of each paragraph, up to its bold title, uses only template tags |
| Compose.TemplateTags | bu-magdeburg/netlify/functions/send-email.js:62-69 | the heading, each paragraph caption, `</p>` and the closing whitespace use only template tags |
| Compose.HtmlBodyTags | bu-magdeburg/netlify/functions/send-email.js:62-69 | whatever the fields hold, every `<` in the HTML body opens one of the template's own tags |
| Compose.HtmlBodyHasNoScript | bu-magdeburg/netlify/functions/send-email.js:62-69 | whatever the fields hold, no `<script>` starts anywhere in the HTML body |
| Handler.MissingConfig | bu-magdeburg/netlify/functions/send-email.js:19-20 | the list of missing variables is empty exactly when `RESEND_API_KEY` and `MAIL_TO` are both set and not empty, and names each one that is not |
| Handler.Normalize | bu-magdeburg/netlify/functions/send-email.js:27-31 | every text field is the `.trim()` of its value, or of the empty string when absent, so it has no whitespace at either end; an absent field becomes empty; consent is kept |
| Handler.NormalizeOnlyRemovesWhitespace | bu-magdeburg/netlify/functions/send-email.js:27-30 | each normalised field is a slice of the given value with only whitespace on either side |
| Handler.NormalizeKeepsTrimmed | bu-magdeburg/netlify/functions/send-email.js:27-31 | fields that are already trimmed are taken as they are |
| Handler.Fails | bu-magdeburg/netlify/functions/send-email.js:34-46 | a message of at least 20 characters never fails the length rule, and the link rule fails exactly when more than two links begin in the message |
| Handler.Validate | bu-magdeburg/netlify/functions/send-email.js:34-46 | nothing is reported exactly when all rules pass; a reported rule fails and every earlier rule passes; a submission that passes has a valid address |
| Handler.FirstFailureReported | bu-magdeburg/netlify/functions/send-email.js:34-46 | the reported rule is the failing rule with no failing rule before it |
| Handler.RejectedByRule | bu-magdeburg/netlify/functions/send-email.js:34-46 | a reported rule is answered with 400 and that rule's message |
| Handler.RuleMessagesDistinct | bu-magdeburg/netlify/functions/send-email.js:34-46 | each rule has its own 400 message, and none of them is the message of a 405, 500 or 502 answer |
| Handler.FirstFailingRuleAnswers | bu-magdeburg/netlify/functions/send-email.js:34-46 | a submission whose first failing rule is r is answered with 400 and r's message, whatever the provider would say |
| Handler.Decide | bu-magdeburg/netlify/functions/send-email.js:14-46 | a submission is sent exactly for a POST with full configuration and a parsed body whose normalised fields pass every rule; otherwise the answer is 400, 405 or 500 with an error |
| Handler.Verdict | bu-magdeburg/netlify/functions/send-email.js:33-46 | a normalised submission is sent exactly when it passes every rule, and then has a valid address; otherwise it is answered with 400 and the message of the rule `Validate` reports |
| Handler.Outbound | bu-magdeburg/netlify/functions/send-email.js:72-89 | a request reaches the provider exactly when the submission is sent; it goes to `MAIL_TO` alone and its reply-to is the submitter's valid address |
| Handler.ComposeDeliveryContents | bu-magdeburg/netlify/functions/send-email.js:48-89 | the request for a submission goes to `MAIL_TO` alone with replies to the submitter, its subject names the submitter, its text holds every field unchanged, every field reads back from its HTML body, and no `<script>` starts anywhere in that body |
| Handler.DeliveryContents | bu-magdeburg/netlify/functions/send-email.js:48-89 | the request uses the fixed endpoint, the bearer key, `MAIL_FROM` or the default sender, the subject `Neue BU-Anfrage von` plus the name, the text lines with all fields unchanged, and an HTML body from which every field reads back and in which no `<script>` starts |
| Handler.Conclude | bu-magdeburg/netlify/functions/send-email.js:91-101 | after the decision: 200 exactly when sent and accepted, 502 exactly when sent and refused, an early response unchanged |
| Handler.Handle | bu-magdeburg/netlify/functions/send-email.js:13-102 | every outcome has status 200, 400, 405, 500 or 502; success is exactly 200, which happens exactly when the submission is sent and accepted; 502 happens exactly when it is sent and refused |
| Handler.NonPostRejected | bu-magdeburg/netlify/functions/send-email.js:14-16 | a method other than POST gives 405 whatever the configuration, body or provider |
| Handler.MissingConfigRejected | bu-magdeburg/netlify/functions/send-email.js:19-23 | missing configuration gives 500, and the same response for any body and any provider answer, so no validation is reached |
| Handler.SentAccepted | bu-magdeburg/netlify/functions/send-email.js:97 | a sent submission that the provider accepts gives 200 with `{ ok: true }` |
| Handler.SentRefused | bu-magdeburg/netlify/functions/send-email.js:91-95 | a sent submission that the provider refuses gives 502, whatever the status and detail of the refusal |
| Handler.SentUnreachable | bu-magdeburg/netlify/functions/send-email.js:98-101 | a provider call that throws gives the generic 500 |
| Handler.CompleteFieldsPass | bu-magdeburg/netlify/functions/send-email.js:33-46 | trimmed fields with a name, a valid address, consent, and a message of at least 20 characters without `:` pass every rule unchanged |
| Handler.CompleteSubmissionSent | bu-magdeburg/netlify/functions/send-email.js:33-97 | such a submission with full configuration is sent, its reply-to is the given address, and it gets 200 or 502 as the provider answers |

## Left out

- The `fetch` to the Resend API is network I/O. Its outcome is a parameter: accepted, refused with a status and a detail, or thrown. The `Content-Type` header and the JSON encoding of the payload are not modelled. The `Delivery` record holds the payload's fields.
- `process.env` is an input record of optional strings. An empty value counts as missing, as it does in JavaScript.
- `JSON.parse` is abstracted. A body on which parsing, or reading a field, throws is `Malformed` and gets 500 `Serverfehler.`; this includes a body that parses to `null`.
- `String(...)` of a non-string JSON value is not modelled: each field arrives as its string form, or absent when it is falsy.
- `!!body.consent` arrives as a boolean.
- `console.error` logging and the text of a refused answer are only logged, so they are not modelled.
- `JSON.stringify` of the response body is the `Reply` datatype.
- Strings are sequences of Unicode scalar values, so a lone UTF-16 surrogate in the input cannot be represented. Other characters are counted as the source counts them: a character outside the Basic Multilingual Plane counts 2 towards the 20-character minimum.
- A refused answer whose body cannot be read makes `resp.text()` throw. The handler then answers 500 instead of 502. The model counts that case as `Unreachable`, the same as a failed `fetch`, so `Refused` stands only for a refused answer whose body was read.
- Exceptions in the composition itself, such as running out of memory, are not modelled. For valid strings none of its steps throws.
