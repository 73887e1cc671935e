# WhatsApp lead bot: a verified model

This project models the core of a WhatsApp Business webhook bot for a truck dealership. It is written in Dafny. The model has four parts:

- **Text helpers** (`conversation_intelligence.py`):
  - extracting a name;
  - extracting a DNI/RUC number and a place;
  - keyword intent detection;
  - category and colour validation;
  - Peruvian phone check;
  - text sanitising;
  - tiered retry messages;
  - the lead summary.
- **Payload builders** (`util.py`):
  - reading the text of an incoming message;
  - building the outgoing text, media, location, button and list messages.
- **Webhook** (`app.py`):
  - the verify-token handshake;
  - the walk over the notification's entries, changes and messages, with its status codes;
  - the keyword dispatch that chooses the reply.
- **Conversation store** (`neon_db.py`): the conversations, messages and failed-validations tables, kept as in-memory sequences of rows with a clock in seconds.

Modules, one per concern:

- `Wrappers`: `Option` and `Result`.
- `PyText`: Python string operations over ASCII plus áéíóúÁÉÍÓÚñÑ.
  - `lower`, `title`, `capitalize`, `split`, `join`, `strip`, `in`, `replace`.
  - The regex character classes `\s`, `\w` and `\b`.
- `Json`: parsed JSON values, plus the Python operations the handlers apply to them.
  - `v[k]`, `d.get(k, default)`, truth testing and `for x in (v or [])`.
  - Each exception these raise is a `PyError` value.
- `ConversationIntelligence` and `ResponseBuilder` (file `conversation_intelligence.dfy`).
- `Util`.
- `App`.
- `NeonDb`.

**Loops.**

- The loops that build a value step by step are `method`s with loop invariants, each proved equal to a specification function: `RemoveGreetings` (the greeting loop of `extract_name`), `ButtonsMessage`, `ListMessage`, `RecivedMessage` and `UpdateConversationStep`.
- The keyword searches are first-match recursive functions instead: `detect_intent` is `FirstIntent`, `validate_color` is `ValidateColor` over `FirstContained`, and each `any(...)` is `AnyContained`.
- The specification functions carry the lemmas.

**Webhook inputs and outputs.**

- The request's fields are parameters: the query arguments, the "is JSON" flag and the parsed body.
- The outgoing messages the webhook would send are its second result.

**Store rows and updates.**

- The store is a class. Its methods update its three tables in place.
- Each `UPDATE` is a `Change` value that `UpdateWhere` applies to every row with the phone number.

## Model

| member | source | states |
|---|---|---|
| ConversationIntelligence.RemoveGreetings | conversation_intelligence.py:57-59 | The loop applies each greeting pattern once, in list order, each anchored at the start of what the previous ones left. |
| ConversationIntelligence.ExtractName | conversation_intelligence.py:47-68 | The name is the greeting-free text after filtering, space normalisation and title-casing. It holds only allowed letters and single interior spaces, has no outer space, and every word is capitalised. |
| ConversationIntelligence.MatchHola | conversation_intelligence.py:11 | A match of `^\s*hola\s*,?\s*` is a non-empty prefix, and it takes every blank after the greeting, so the text after it does not start with whitespace. |
| ConversationIntelligence.MatchBuenosDias | conversation_intelligence.py:12 | The same for the "buenos días / tardes / noches" pattern, with an optional comma. |
| ConversationIntelligence.MatchQueTal | conversation_intelligence.py:13 | The same for `^\s*que\s+tal\s*,?\s*`. |
| ConversationIntelligence.MatchSoy | conversation_intelligence.py:14 | The same for `^\s*soy\s+`. |
| ConversationIntelligence.MatchMeLlamo | conversation_intelligence.py:15 | The same for `^\s*me\s+llamo\s+`. |
| ConversationIntelligence.MatchMiNombreEs | conversation_intelligence.py:16 | The same for `^\s*mi\s+nombre\s+es\s+`. |
| ConversationIntelligence.StripGreetings | conversation_intelligence.py:57-59 | Applying the anchored patterns in turn only ever removes a prefix: the result is a suffix of the text. |
| ConversationIntelligence.StripAllInOrder | conversation_intelligence.py:58-59 | The fixed list applies hola, buenos días, que tal, soy, me llamo and mi nombre es, in that order. |
| ConversationIntelligence.NameOf | conversation_intelligence.py:56-68 | The extracted name holds only letters from `[a-zA-ZáéíóúÁÉÍÓÚñÑ]` and single interior spaces, with no outer space. Every word starts upper-case and continues lower-case. |
| ConversationIntelligence.TitleClean | conversation_intelligence.py:65-68 | Title-casing single-spaced letter text gives a clean name. |
| ConversationIntelligence.TitleOfClean | conversation_intelligence.py:68 | Title-casing leaves a clean name unchanged. |
| ConversationIntelligence.NameOfCleanRemainder | conversation_intelligence.py:52-68 | When the greeting-free remainder is already a clean name, it is the result, even when it is a single word. No two-word check exists. |
| ConversationIntelligence.HolaSoyStripped | conversation_intelligence.py:52 | "Hola soy " followed by any text that starts with a non-blank and starts no later greeting loses exactly those two greetings. |
| ConversationIntelligence.BuenosDiasStripped | conversation_intelligence.py:53 | "Buenos días, me llamo " followed by such a text loses exactly those two greetings. |
| ConversationIntelligence.MiNombreEsStripped | conversation_intelligence.py:54 | "Mi nombre es " followed by any text that starts with a non-blank loses exactly that greeting. |
| ConversationIntelligence.HolaSoyExample | conversation_intelligence.py:52 | "Hola soy Juan Perez" gives "Juan Perez". |
| ConversationIntelligence.BuenosDiasExample | conversation_intelligence.py:53 | "Buenos días, me llamo María López" gives "María López". |
| ConversationIntelligence.MiNombreEsExample | conversation_intelligence.py:54 | "Mi nombre es Carlos" gives "Carlos". |
| ConversationIntelligence.DocumentAtIsMatch | conversation_intelligence.py:82 | A document starts at i exactly when the regex (8 or 11 digits between word boundaries) matches at i. The match then covers the whole digit run. |
| ConversationIntelligence.FindDocument | conversation_intelligence.py:82 | The search finds the first position where a document starts, and None when there is none. |
| ConversationIntelligence.DniOf | conversation_intelligence.py:82-84 | A found document has at least 8 characters. |
| ConversationIntelligence.DniIsFirstMatch | conversation_intelligence.py:82-84 | dni is None exactly when the regex matches nowhere. Otherwise it is the text of the leftmost match. |
| ConversationIntelligence.DniIsWholeRun | conversation_intelligence.py:82-84 | A dni is a whole digit run of exactly 8 or 11 digits. |
| ConversationIntelligence.NoDigitsNoDni | conversation_intelligence.py:82-84 | A text without digits has no dni. |
| ConversationIntelligence.LeadingDocument | conversation_intelligence.py:82-84 | An 8- or 11-digit number followed by a non-word character is the dni. |
| ConversationIntelligence.LeadingDocumentRemainder | conversation_intelligence.py:86 | The location is read from the rest of the text with every occurrence of the dni deleted. |
| ConversationIntelligence.DeletesEveryOccurrence | conversation_intelligence.py:86 | The dni is deleted everywhere it occurs, even inside a longer number. So "d d7" gives location "7". |
| ConversationIntelligence.RemoveInsideNumber | conversation_intelligence.py:86 | `replace` removes the dni from inside a longer digit run. |
| ConversationIntelligence.LocationBlank | conversation_intelligence.py:89-91 | location is None exactly when the dni-free text holds only commas and whitespace. |
| ConversationIntelligence.DniLocationOf | conversation_intelligence.py:79-93 | A location has no commas and no leading, trailing or doubled spaces. |
| ConversationIntelligence.SeparatorsThenPlace | conversation_intelligence.py:89 | Separators followed by a clean place name collapse to that name. |
| ConversationIntelligence.DigitsLocation | conversation_intelligence.py:89-91 | Digits left over after separators become the location unchanged. |
| ConversationIntelligence.DocumentThenPlace | conversation_intelligence.py:76 | A document, separators and a clean place name ("10283749, Lima") give that dni and that location. |
| ConversationIntelligence.WordsOnly | conversation_intelligence.py:89-91 | A letters-only text gives no dni and still a location, its title-cased form ("sin datos" gives "Sin Datos"). |
| ConversationIntelligence.ExtractDniLocation | conversation_intelligence.py:71-93 | The method's result is the dni and location the specification functions above describe. |
| ConversationIntelligence.AnyContained | conversation_intelligence.py:105 | True exactly when some keyword is a substring of the text. |
| ConversationIntelligence.FirstIntent | conversation_intelligence.py:104-106 | The index of the first intent with a matching keyword; None exactly when no intent matches. |
| ConversationIntelligence.DetectIntent | conversation_intelligence.py:96-108 | None exactly when no keyword of any intent occurs in the lower-cased text. Otherwise the answer is the first intent, in the order ubicacion, ayuda, hablar_humano, salir, with a matching keyword. |
| ConversationIntelligence.DetectIntentPriority | conversation_intelligence.py:104-106 | An intent that matches, with no earlier intent matching, is the answer. |
| ConversationIntelligence.ValidateCategory | conversation_intelligence.py:111-124 | "Camión Isuzu" exactly when camión, camion or isuzu occurs in the lower-cased text. |
| ConversationIntelligence.CamionetasUnreachable | conversation_intelligence.py:119-122 | "Camionetas" is never returned. The answer is None exactly when no truck word occurs. |
| ConversationIntelligence.CamionetaIsTruck | conversation_intelligence.py:119-122 | "camioneta" is classified as "Camión Isuzu". |
| ConversationIntelligence.ValidateCategoryIntended | conversation_intelligence.py:119-122 | The light-vehicle words are tried first. "Camionetas", "Camión Isuzu" and None are each characterised exactly. |
| ConversationIntelligence.CategoryVersionsAgree | conversation_intelligence.py:111-124 | The as-written and intended versions agree on every text without a light-vehicle word. They always agree on rejecting. |
| ConversationIntelligence.ValidateColor | conversation_intelligence.py:127-137 | None exactly when no colour occurs. Otherwise the capitalised first colour in list order (blanco, rojo, azul, negro, gris, plata) that occurs in the lower-cased text. |
| ConversationIntelligence.PhoneShape | conversation_intelligence.py:145 | The pattern `^51\d{9}$`, read piece by piece, holds exactly for "51" followed by nine digits, optionally followed by one final newline (Python's `$`). |
| ConversationIntelligence.IsValidPhonePeru | conversation_intelligence.py:140-145 | True exactly for "51" followed by nine digits, optionally followed by one final newline. |
| ConversationIntelligence.SanitizeText | conversation_intelligence.py:148-155 | The output is no longer than the input and holds only word characters, commas, periods and single interior spaces. Every word character, comma and period of the input occurs in it as often as in the input. Its words are the words of the input with the other characters removed, in the input's order. |
| ConversationIntelligence.SanitizeFixpoint | conversation_intelligence.py:148-155 | Text that is already single-spaced and holds only `[\w\s,.]` characters comes back unchanged. |
| PyText.JoinSplitKeepsWords | conversation_intelligence.py:155 | `' '.join(text.split())` keeps every non-space character as often as the text has it. |
| PyText.JoinSplitShorter | conversation_intelligence.py:155 | `' '.join(text.split())` is no longer than the text. |
| PyText.KeepOccurrences | conversation_intelligence.py:153 | Removing the characters outside a class keeps each character of the class as often as the text has it. |
| ConversationIntelligence.SanitizeIdempotent | conversation_intelligence.py:148-155 | Sanitising twice equals sanitising once. |
| ResponseBuilder.FormatErrorRetry | conversation_intelligence.py:172-195 | For the three known steps: tier `retry_count` when it is 1 to 3, tier 3 for any other count. For any other step: "Por favor intenta nuevamente.". |
| ResponseBuilder.RetryTiersSaturate | conversation_intelligence.py:195 | Every count of 3 or more gets the tier-3 message. |
| ResponseBuilder.Render | conversation_intelligence.py:205-219 | `data.get(key, default)` in the template. An absent key shows the default; a present value shows itself. |
| ResponseBuilder.FormatSummaryTelegram | conversation_intelligence.py:198-220 | The summary starts with a newline, and every line of the template appears in it, rendered from the data and followed by a newline. |
| ResponseBuilder.SummaryReadsOnlyKeys | conversation_intelligence.py:198-220 | The summary depends only on the template's keys of the data. |
| Util.TextOf | util.py:1-19 | The case table of the text: <br>• a failed `type` lookup is the result; <br>• "text" gives text.body; <br>• "interactive" with button_reply or list_reply gives that reply's title; a failed interactive.type lookup is the result; any other reply type gives ""; <br>• any other message type gives "". |
| Util.GetTextUser | util.py:1-19 | The text is given by a case table. <br>• A "text" message gives text.body. <br>• A button_reply or list_reply gives the reply's title. <br>• Any other type or subtype gives "". <br>• A missing key raises KeyError. <br>• Subscripting a non-dict raises TypeError. |
| Util.TextMessage | util.py:22-29 | The record has `to` = number, type "text" and text.body = the text. |
| Util.TextMessageOnlyByArguments | util.py:22-29 | Nothing in it but the number and the text depends on the input. |
| Util.Addressed | util.py:31-41 | The common shape of a fixed payload: `to` = number, `type` = kind, and the kind's content under the kind. |
| Util.TextFormatMessage | util.py:31-41 | `to` = number, type "text", the fixed formatted body. |
| Util.ImageMessage | util.py:43-53 | `to` = number, type "image", the fixed link. |
| Util.AudioMessage | util.py:55-65 | `to` = number, type "audio", the fixed link. |
| Util.VideoMessage | util.py:67-77 | `to` = number, type "video", the fixed link. |
| Util.DocumentMessage | util.py:79-89 | `to` = number, type "document", the fixed link. |
| Util.LocationMessage | util.py:92-104 | `to` = number, type "location", and no recipient_type field. |
| Util.AddressedOnlyByNumber | util.py:31-41 | A fixed payload for one number is the payload for any other number, re-addressed. |
| Util.FixedPayloadsOnlyByNumber | util.py:31-89 | The text-format, image, audio, video and document payloads depend only on the number. |
| Util.LocationOnlyByNumber | util.py:92-104 | The location payload depends only on the number. |
| Util.Button | util.py:111-117 | Button i has type "reply", id "btn_i" and the given title. |
| Util.Buttons | util.py:109-117 | One button per entry, in order, button i built from entry i. |
| Util.ButtonIdsDistinct | util.py:114 | Different buttons have different ids. |
| Util.ButtonsPayload | util.py:119-129 | `to` = number, type "interactive", an interactive of type "button" with the body text and exactly the buttons given. |
| Util.ButtonsMessage | util.py:106-130 | The loop's payload holds one button per entry, with no cap at 3. |
| Util.Truncated | util.py:141 | `[:70]`: a string or list becomes its prefix of min(70, length). Anything else raises TypeError. |
| Util.Row | util.py:138-142 | The row exists exactly when `id` and `title` can be read and the description can be sliced. It copies id and title, and holds the truncated description ("" when absent). |
| Util.Rows | util.py:136-142 | A successful list has one row per option. |
| Util.RowsCopyOptions | util.py:136-142 | Rows exist exactly when every option has a row. Row i copies option i's id and title and truncates its description. Otherwise the first failing option's exception is raised. |
| Util.ListAction | util.py:153-160 | The button label is `title_list`, and there is exactly one section, "Catálogo", holding the rows. |
| Util.ListInteractive | util.py:148-162 | Type "list", the header and body texts, and the fixed footer "Seleccione una opción". |
| Util.ListPayload | util.py:144-164 | `to` = number, type "interactive", and the interactive part above. |
| Util.ListMessage | util.py:133-164 | The loop's payload is the list payload over the rows of the options. The first failing option raises instead. `title_list` defaults to "Opciones". |
| App.Verifytoken | app.py:11-34 | The four cases: <br>• both present, token matches: the challenge with 200; <br>• both present, token differs: "Invalid verify token" with 403; <br>• both absent: the usage text with 200; <br>• exactly one present: "Missing parameters" with 400. |
| App.VerifytokenStatuses | app.py:19-32 | 200, 403 and 400 each happen exactly in their case. Echoing the challenge implies the token matched. |
| App.KeywordPayload | app.py:81-96 | The six media keywords build their payload addressed to the number. "button" and "list" raise TypeError, because the composers are called with arguments missing. |
| App.Reply | app.py:76-96 | A non-string text raises AttributeError at `.lower()`. |
| App.GenerateMessage | app.py:76-98 | The if/elif chain gives the reply: the first keyword, in the order format, image, audio, video, document, location, button, list, found in the lower-cased text, else the echo. |
| App.EchoWithoutKeywords | app.py:77-78 | With no keyword, the reply is the text message "Persona dijo: " + text. |
| App.FirstKeywordWins | app.py:80-96 | The first keyword in the dispatch order that occurs decides the reply, whatever later keywords occur ("image video" gives the image). |
| App.HandleMessage | app.py:59-63 | A message always counts as found. At most one payload is sent, and one is sent exactly when nothing raised; a non-dict message raises AttributeError at `.get`. A sent reply means the text could be read. |
| App.ChangeMessages | app.py:55-58 | A non-dict change, or a non-dict `value`, raises AttributeError. A change without `value` has no messages. Any messages found are the items of the `messages` list. |
| App.Webhook | app.py:39-74 | A non-JSON request gets "no event received - not json", 400, with nothing sent. A body that does not parse, or is not a dict, gets "internal error", 500, with nothing sent. A dict body without `entry` gets "no event received", 200. |
| App.Then | app.py:54-63 | Messages are handled in order: a raise stops the walk, keeping what was sent before it. |
| App.ThenAssociative | app.py:54-63 | Grouping of the nested loops does not change the outcome. |
| App.Outcome | app.py:66-74 | 500 exactly when something raised. Otherwise "EVENT_RECEIVED" when a message was found, else "no event received". |
| App.AnswerMessage | app.py:60-63 | The body of the message loop reads the sender and the text and generates the reply. It succeeds exactly when `HandleMessage` sends, and then returns the one payload sent; on a failure, nothing is sent and the error is the run's exception. |
| App.RecivedMessage | app.py:39-74 | The three nested loops give the response and the sends of the specification `Webhook`. |
| App.MessagesFoundIffSent | app.py:59-63 | A message was found exactly when a reply was sent. |
| App.ChangesFoundIffSent | app.py:55-63 | The same holds over changes. |
| App.EntriesFoundIffSent | app.py:54-63 | The same holds over entries. |
| App.WebhookResponses | app.py:43-74 | The status is 200, 400 or 500. It is 400 exactly for a non-JSON body, and then nothing is sent. On 200 the body is "EVENT_RECEIVED" exactly when something was sent, else "no event received". |
| App.TextRecordRun | app.py:59-63 | A text message is handled by generating the reply to its body for its sender. |
| App.NotificationRun | app.py:51-63 | A one-message notification gives that message's run. |
| App.EchoedNotification | app.py:39-78 | A keyword-free text message gets "EVENT_RECEIVED", 200, and exactly one echo is sent. |
| App.BrokenKeywordFails | app.py:93-96 | A text whose first keyword is "button" or "list" ends in "internal error", 500, with nothing sent. |
| NeonDb.RecentFailure | neon_db.py:226-233 | The latest failed validation of the step by the phone with timestamp after NOW() minus 5 minutes, or None when there is none. |
| NeonDb.NextRetry | neon_db.py:235-236 | 1 without a recent failure; otherwise the latest recent failure's retry_count plus 1. |
| NeonDb.LatestOpen | neon_db.py:71-77 | The last-inserted open conversation of the phone; None exactly when the phone has no open conversation. |
| NeonDb.Latest | neon_db.py:180-185 | The last-inserted conversation of the phone; None exactly when the phone has none. |
| NeonDb.LatestIsNewest | neon_db.py:71-77 | In a well-formed table both picks have the latest `created_at` among their candidates (`ORDER BY created_at DESC LIMIT 1`, here and at `neon_db.py:181`). |
| NeonDb.RecentFailureIsNewest | neon_db.py:226-233 | In a well-formed log the failure counted from has the latest timestamp among the recent failures of the phone and step (`ORDER BY timestamp DESC LIMIT 1`). |
| NeonDb.UpdateWhere | neon_db.py:121-125 | `WHERE phone_number = %s`: every row of the phone, completed or not, is changed. Every other row is kept as it is. |
| NeonDb.KwargsApplied | neon_db.py:114-127 | Each keyword field with a value is assigned it. Fields no valued keyword names keep their values. |
| NeonDb.StepSetsGiven | neon_db.py:111-127 | current_step becomes the step, and every keyword field whose value is not None is set. |
| NeonDb.StepKeepsOthers | neon_db.py:114-117 | Fields passed as None and all other columns are unchanged, as are id, phone and times. |
| NeonDb.CompletedLeavesNoneOpen | neon_db.py:142-148 | After completing, the phone has no open conversation, so the next get_or_create inserts a fresh START record. |
| NeonDb.HandoffKeepsLatest | neon_db.py:158-164 | After a handoff, get_or_create finds the phone's latest conversation, the same record (same id). |
| NeonDb.OtherPhonesUnaffected | neon_db.py:121-125 | An update of one phone's rows does not change what the lookups find for another phone. |
| NeonDb.RetryWithinWindow | neon_db.py:226-236 | A failure within 5 minutes of the previous one of the same step gets the next retry number. |
| NeonDb.RetryRestartsAfterWindow | neon_db.py:226-236 | After 5 quiet minutes the retry number is 1 again. |
| NeonDb.RetryPerPhoneAndStep | neon_db.py:227-233 | Failures of other phones or steps do not count. |
| NeonDb.NeonDB.GetOrCreateConversation | neon_db.py:62-100 | With an open conversation for the phone, returns the latest and writes nothing. Otherwise it appends and returns exactly one START / IN_PROGRESS record. |
| NeonDb.NeonDB.UpdateConversationStep | neon_db.py:102-135 | The assignment list built by the loop (current_step, then each keyword whose value is not None) is applied to every row of the phone. |
| NeonDb.NeonDB.CompleteConversation | neon_db.py:137-151 | Every row of the phone becomes COMPLETED at FINISHED, completed now. |
| NeonDb.NeonDB.HandoffToHuman | neon_db.py:153-167 | Every row of the phone becomes HUMAN_HANDOFF at EN_ATENCION_HUMANA, with the reason as notes. The reason defaults to "Cliente solicitó hablar con humano". |
| NeonDb.NeonDB.LogMessage | neon_db.py:171-198 | Appends one message with the id of the phone's latest conversation, or None when it has none. A database error is swallowed and writes nothing. |
| NeonDb.NeonDB.LogFailedValidation | neon_db.py:220-247 | Returns 1 with no failure of (phone, step) in the last 5 minutes, else the latest one's retry_count + 1. Appends exactly one record with that count. |

## Left out

- **I/O and infrastructure.**
  - Flask routing, `request` access, logging and `print` are not modelled.
  - The HTTP POST in `whatsappservices.py` is not modelled. It catches every exception and returns a flag, so the model takes sends as always completing. The payloads to send are the webhook's second result.
- **Environment variables.** `VERIFY_TOKEN` is a parameter.
- **The exception branch of `Verifytoken`** (`app.py:33-34`) is not modelled. Nothing in its body can raise once the arguments are given.
- **`phone_id`** is not modelled. It is only passed on and logged, and never read.
- **JSON.**
  - Numbers are integers only.
  - The key order of a JSON object is not modelled.
  - The webhook body is a `Json` value or absent; the decoding itself is not modelled.
- **Iterating a true string or dict** in `for x in (v or [])` is modelled as raising AttributeError at once. In Python the loop body's first `.get` on the element raises it.
- **Slicing a non-sequence description.** `Util.Truncated` gives TypeError for every description that is neither a string nor a list. Python's exact exception for a dict slice depends on the version.
- **Text.**
  - `lower`, `title`, `capitalize`, `\s`, `\w` and `\b` are modelled over ASCII plus áéíóúÁÉÍÓÚñÑ. Other Unicode letters are out of scope.
  - Emoji and Markdown copy are opaque constant strings.
- **`ResponseBuilder.typing_delay`** is a random float and is not modelled.
- **Database failures.**
  - Connection-pool setup, environment checks and SQL text are not modelled.
  - `get_or_create_conversation` and `update_conversation_step` roll back and re-raise on a database error (`neon_db.py:95-98`, `130-133`). The model leaves out that path: these methods always succeed.
  - An error in `complete_conversation`, `handoff_to_human` or `log_failed_validation` propagates uncaught. The model leaves that out too.
  - `log_message` logs and swallows its error (`neon_db.py:194-196`). This is modelled by the `fault` flag: the message is not written and nothing is raised.
- **Clock and ordering.**
  - `NOW()` is the object's `now` field, in seconds; datetime formatting is not modelled.
  - Rows are created at non-decreasing times. Among rows created in the same second, "latest" means last inserted; SQL leaves that order unspecified.
- **`NeonDb.NeonDB.UpdateConversationStep`**: the keyword arguments must be distinct. None of them may be `phone_number`, `step` or `self`, because Python rejects such a call. `current_step` may appear only with the value None, which is dropped. Any other value would assign the column twice, and PostgreSQL rejects that `UPDATE`. The error path of those rejected calls is not modelled.
- **`NeonDb.NeonDB.UpdateConversationStep`** with a valued `id`, `created_at` or `completed_at` keyword is not modelled. The query would assign that column, so it would change the row's identity or times, and with them what a later `ORDER BY created_at DESC LIMIT 1` returns. The model keeps those three columns as typed fields, not as text columns, so `ValidKwargs` admits them only with the value None. `NeonDb.StepKeepsOthers` therefore promises unchanged ids and times only for the calls the model admits.
- **Unknown column names** are not modelled. The table schema is not part of this model, so every keyword name other than those above is taken to be a text column.
- **Not part of this model:** `get_conversation_history`, `get_conversation_summary`, the connection helpers of `neon_db.py`, and `gunicorn.conf.py`.
- **Out-of-resource workaround.** A single lemma relating `App.Reply` failures to the webhook status was too costly to prove. `App.BrokenKeywordFails` states that case for a text message instead.

## Findings

| source | as written | input that shows it | evidently intended | confidence | as-written member | corrected member |
|---|---|---|---|---|---|---|
| conversation_intelligence.py:119-122 | The truck words are tested first. "camion" is a substring of "camioneta" and "camionetas", so the "Camionetas" branch can never be taken. | "camioneta" gives "Camión Isuzu" | Light vehicles give "Camionetas", with the light-vehicle words tried before the truck words | not executed | ConversationIntelligence.CamionetaIsTruck | ConversationIntelligence.ValidateCategoryIntended |
