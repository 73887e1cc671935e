/**
  The Flask webhook of the bot. The GET handler answers Meta's verification handshake;
  the POST handler walks the notification's entries, changes and messages and, for each
  message, sends back a payload chosen by keyword. The request's fields, the configured
  verify token and the parsed body come in as parameters; the payloads handed to the
  sender are returned in order instead of being posted.
*/
module App {
  import opened Wrappers
  import opened Json
  import opened PyText
  import Util

  /** The body and status code of an HTTP response. */
  datatype Response = Response(body: string, status: nat)

  // ---------------------------------------------------------------------------
  // Verification handshake

  /** The usage text a bare GET receives. */
  const UsageText := "Webhook endpoint: usar '?hub.verify_token=...&hub.challenge=...' para verificación de webhook."

  /** `Verifytoken`, given the `hub.verify_token` and `hub.challenge` query arguments and
      the configured `VERIFY_TOKEN` (None when the variable is unset). */
  function Verifytoken(token: Option<string>, challenge: Option<string>, accessToken: Option<string>): (r: Response)
    ensures token.Some? && challenge.Some? && token == accessToken ==> r == Response(challenge.value, 200)
    ensures token.Some? && challenge.Some? && token != accessToken ==> r == Response("Invalid verify token", 403)
    ensures token.None? && challenge.None? ==> r == Response(UsageText, 200)
    ensures token.Some? != challenge.Some? ==> r == Response("Missing parameters", 400)
  {
    if token.Some? && challenge.Some? then
      if token == accessToken then Response(challenge.value, 200) else Response("Invalid verify token", 403)
    else if token.None? && challenge.None? then Response(UsageText, 200)
    else Response("Missing parameters", 400)
  }

  /** Each status code of the handshake, with exactly the requests that receive it: the
      challenge is echoed only to a caller presenting the configured token. */
  lemma VerifytokenStatuses(token: Option<string>, challenge: Option<string>, accessToken: Option<string>)
    ensures Verifytoken(token, challenge, accessToken).status == 200 <==>
      (token.Some? && challenge.Some? && token == accessToken) || (token.None? && challenge.None?)
    ensures Verifytoken(token, challenge, accessToken).status == 403 <==>
      token.Some? && challenge.Some? && token != accessToken
    ensures Verifytoken(token, challenge, accessToken).status == 400 <==> token.Some? != challenge.Some?
    ensures challenge.Some? && Verifytoken(token, challenge, accessToken) == Response(challenge.value, 200) ==>
      token.Some? && token == accessToken
  {
  }

  // ---------------------------------------------------------------------------
  // Keyword replies

  /** The keywords `GenerateMessage` tests, in the order it tests them. */
  const Keywords: seq<string> := ["format", "image", "audio", "video", "document", "location", "button", "list"]

  /** The payload for the keyword at index `i`. The "button" and "list" branches (6, 7) call
      `ButtonsMessage` and `ListMessage` with only the recipient, so the call raises
      TypeError for the missing arguments. */
  function KeywordPayload(i: nat, number: Json): (r: Result<Json, PyError>)
    requires i < |Keywords|
    ensures r.Failure? <==> i >= 6
    ensures r.Failure? ==> r.error == TypeError
    ensures r.Success? ==> Path(r.value, ["to"]) == Success(number)
  {
    match i
    case 0 => Success(Util.TextFormatMessage(number))
    case 1 => Success(Util.ImageMessage(number))
    case 2 => Success(Util.AudioMessage(number))
    case 3 => Success(Util.VideoMessage(number))
    case 4 => Success(Util.DocumentMessage(number))
    case 5 => Success(Util.LocationMessage(number))
    case _ => Failure(TypeError)
  }

  /** The echo reply a text without keywords receives. */
  function Echo(text: string, number: Json): Json {
    Util.TextMessage(Str("Persona dijo: " + text), number)
  }

  /** The payload `GenerateMessage` sends for a message text: that of the first keyword,
      in list order, the lower-cased text contains, else the echo. A text that is not a
      string has no `lower` method. */
  function Reply(text: Json, number: Json): (r: Result<Json, PyError>)
    ensures !text.Str? ==> r == Failure(AttributeError)
  {
    if !text.Str? then Failure(AttributeError)
    else match FirstContained(Keywords, LowerStr(text.s), 0)
      case None => Success(Echo(text.s, number))
      case Some(i) => KeywordPayload(i, number)
  }

  /** `GenerateMessage`: the echo payload, replaced by the first branch of the keyword chain
      whose keyword the lower-cased text contains. Each `else` narrows the search for the
      first keyword to the keywords after the one just tested. */
  method GenerateMessage(text: Json, number: Json) returns (data: Result<Json, PyError>)
    ensures data == Reply(text, number)
  {
    if !text.Str? {
      return Failure(AttributeError);
    }
    data := Success(Echo(text.s, number));
    var lower := LowerStr(text.s);
    ghost var first := FirstContained(Keywords, lower, 0);
    if Contains(lower, Keywords[0]) {
      data := Success(Util.TextFormatMessage(number));
      assert first == Some(0);
      assert data == KeywordPayload(0, number);
    } else {
      assert first == FirstContained(Keywords, lower, 1);
      if Contains(lower, Keywords[1]) {
        data := Success(Util.ImageMessage(number));
        assert first == Some(1);
        assert data == KeywordPayload(1, number);
      } else {
        assert first == FirstContained(Keywords, lower, 2);
        if Contains(lower, Keywords[2]) {
          data := Success(Util.AudioMessage(number));
          assert first == Some(2);
          assert data == KeywordPayload(2, number);
        } else {
          assert first == FirstContained(Keywords, lower, 3);
          if Contains(lower, Keywords[3]) {
            data := Success(Util.VideoMessage(number));
            assert first == Some(3);
            assert data == KeywordPayload(3, number);
          } else {
            assert first == FirstContained(Keywords, lower, 4);
            if Contains(lower, Keywords[4]) {
              data := Success(Util.DocumentMessage(number));
              assert first == Some(4);
              assert data == KeywordPayload(4, number);
            } else {
              assert first == FirstContained(Keywords, lower, 5);
              if Contains(lower, Keywords[5]) {
                data := Success(Util.LocationMessage(number));
                assert first == Some(5);
                assert data == KeywordPayload(5, number);
              } else {
                assert first == FirstContained(Keywords, lower, 6);
                if Contains(lower, Keywords[6]) {
                  data := Failure(TypeError);
                  assert first == Some(6);
                  assert data == KeywordPayload(6, number);
                } else {
                  assert first == FirstContained(Keywords, lower, 7);
                  if Contains(lower, Keywords[7]) {
                    data := Failure(TypeError);
                    assert first == Some(7);
                    assert data == KeywordPayload(7, number);
                  } else {
                    assert first == FirstContained(Keywords, lower, 8);
                    assert first == None;
                  }
                }
              }
            }
          }
        }
      }
    }
  }

  /** A text without any keyword is echoed back. */
  lemma EchoWithoutKeywords(text: string, number: Json)
    requires forall j :: 0 <= j < |Keywords| ==> !Contains(LowerStr(text), Keywords[j])
    ensures Reply(Str(text), number) == Success(Echo(text, number))
    ensures Path(Echo(text, number), ["text", "body"]) == Success(Str("Persona dijo: " + text))
  {
  }

  /** The first keyword wins, whatever later keywords the text contains too (a text with
      both "image" and "video" gets the image). */
  lemma FirstKeywordWins(text: string, number: Json, i: nat)
    requires i < |Keywords| && Contains(LowerStr(text), Keywords[i])
    requires forall j :: 0 <= j < i ==> !Contains(LowerStr(text), Keywords[j])
    ensures Reply(Str(text), number) == KeywordPayload(i, number)
  {
    var m := FirstContained(Keywords, LowerStr(text), 0);
    assert m == Some(i);
  }

  // ---------------------------------------------------------------------------
  // Notification traversal

  /** The effect of part of the traversal: the payloads handed to the sender, whether a
      message was met, and the exception that stopped the walk, if one did. */
  datatype Run = Run(sent: seq<Json>, found: bool, failure: Option<PyError>)

  /** Nothing done. */
  const Idle := Run([], false, None)

  /** Stopped at once by an exception. */
  function Halt(e: PyError): Run {
    Run([], false, Some(e))
  }

  /** `a` followed by `b`, unless `a` raised. */
  function Then(a: Run, b: Run): (r: Run)
    ensures a.failure.Some? ==> r == a
    ensures a.failure.None? ==> r.sent == a.sent + b.sent && r.failure == b.failure
  {
    if a.failure.Some? then a else Run(a.sent + b.sent, a.found || b.found, b.failure)
  }

  lemma ThenAssociative(a: Run, b: Run, c: Run)
    ensures Then(Then(a, b), c) == Then(a, Then(b, c))
  {
    if a.failure.None? && b.failure.None? {
      assert (a.sent + b.sent) + c.sent == a.sent + (b.sent + c.sent);
    }
  }

  lemma IdleThen(a: Run)
    ensures Then(Idle, a) == a
  {
    assert [] + a.sent == a.sent;
  }

  lemma ThenIdle(a: Run)
    ensures Then(a, Idle) == a
  {
    if a.failure.None? {
      assert a.sent + [] == a.sent;
    }
  }

  /** One message: read its sender and text, choose the reply and hand it to the sender,
      which swallows its own failures. The message counts as met even if this raises. */
  function HandleMessage(message: Json): (r: Run)
    ensures r.found
    ensures r.failure.None? <==> |r.sent| == 1
    ensures |r.sent| <= 1
    ensures !message.Obj? ==> r == Run([], true, Some(AttributeError))
    ensures r.failure.None? ==> Util.TextOf(message).Success?
  {
    match AsDict(message)
    case Failure(e) => Run([], true, Some(e))
    case Success(m) =>
      match Util.TextOf(message)
      case Failure(e) => Run([], true, Some(e))
      case Success(text) =>
        match Reply(text, Get(m, "from", Null))
        case Failure(e) => Run([], true, Some(e))
        case Success(data) => Run([data], true, None)
  }

  function HandleMessages(messages: seq<Json>): Run
    decreases |messages|
  {
    if messages == [] then Idle else Then(HandleMessage(messages[0]), HandleMessages(messages[1..]))
  }

  /** The messages of one change: its `value` (default `{}`) must be a dict and its
      `metadata` a dict when present and true; its `messages` default to `[]`. */
  function ChangeMessages(change: Json): (r: Result<seq<Json>, PyError>)
    ensures !change.Obj? ==> r == Failure(AttributeError)
    ensures change.Obj? && "value" !in change.fields ==> r == Success([])
    ensures change.Obj? && "value" in change.fields && !change.fields["value"].Obj? ==> r == Failure(AttributeError)
    ensures r.Success? && r.value != [] ==>
      change.fields["value"].Obj? && "messages" in change.fields["value"].fields
      && change.fields["value"].fields["messages"].Arr?
      && r.value == change.fields["value"].fields["messages"].items
  {
    var c :- AsDict(change);
    var value :- AsDict(Get(c, "value", Obj(map[])));
    var metadata := Get(value, "metadata", Null);
    if Truthy(metadata) && !metadata.Obj? then Failure(AttributeError)
    else Items(Get(value, "messages", Null))
  }

  /** One change: its messages, in order. */
  function HandleChange(change: Json): Run {
    match ChangeMessages(change)
    case Failure(e) => Halt(e)
    case Success(messages) => HandleMessages(messages)
  }

  function HandleChanges(changes: seq<Json>): Run
    decreases |changes|
  {
    if changes == [] then Idle else Then(HandleChange(changes[0]), HandleChanges(changes[1..]))
  }

  /** The changes of one entry, default `[]`. */
  function EntryChanges(entry: Json): Result<seq<Json>, PyError> {
    var en :- AsDict(entry);
    Items(Get(en, "changes", Arr([])))
  }

  /** One entry: its changes, in order. */
  function HandleEntry(entry: Json): Run {
    match EntryChanges(entry)
    case Failure(e) => Halt(e)
    case Success(changes) => HandleChanges(changes)
  }

  function HandleEntries(entries: seq<Json>): Run
    decreases |entries|
  {
    if entries == [] then Idle else Then(HandleEntry(entries[0]), HandleEntries(entries[1..]))
  }

  /** Any exception is caught and answered with 500. */
  const InternalError := Response("internal error", 500)

  /** The response once the walk is over. */
  function Outcome(run: Run): (r: Response)
    ensures r.status == 500 <==> run.failure.Some?
  {
    if run.failure.Some? then InternalError
    else if run.found then Response("EVENT_RECEIVED", 200)
    else Response("no event received", 200)
  }

  /** The POST handler's response and the payloads it handed to the sender, given whether
      the request declared JSON and its parsed body (None when parsing failed). */
  function Webhook(isJson: bool, body: Option<Json>): (r: (Response, seq<Json>))
    ensures !isJson ==> r == (Response("no event received - not json", 400), [])
    ensures isJson && (body.None? || !body.value.Obj?) ==> r == (InternalError, [])
    ensures isJson && body.Some? && body.value.Obj? && "entry" !in body.value.fields ==>
      r == (Response("no event received", 200), [])
  {
    if !isJson then (Response("no event received - not json", 400), [])
    else if body.None? then (InternalError, [])
    else match AsDict(body.value)
      case Failure(_) => (InternalError, [])
      case Success(b) =>
        match Items(Get(b, "entry", Arr([])))
        case Failure(_) => (InternalError, [])
        case Success(entries) =>
          var run := HandleEntries(entries);
          (Outcome(run), run.sent)
  }

  /** A walk that raises partway keeps what was sent before and answers 500. */
  lemma Stops(done: Run, first: Run, later: Run)
    requires done.failure.None? && first.failure.Some? && first.sent == []
    ensures Then(done, Then(first, later)).failure.Some?
    ensures Then(done, Then(first, later)).sent == done.sent
  {
    assert done.sent + [] == done.sent;
  }

  /** The start of the middle loop's body: the change's `value`, its `metadata` and its
      `messages`, each looked up as the webhook does. */
  method ReadChange(change: Json) returns (messages: Result<seq<Json>, PyError>)
    ensures messages == ChangeMessages(change)
  {
    var c := AsDict(change);
    if c.Failure? {
      return Failure(c.error);
    }
    var value := AsDict(Get(c.value, "value", Obj(map[])));
    if value.Failure? {
      return Failure(value.error);
    }
    var metadata := Get(value.value, "metadata", Null);
    if Truthy(metadata) && !metadata.Obj? {
      return Failure(AttributeError);
    }
    messages := Items(Get(value.value, "messages", Null));
  }

  /** The body of the innermost loop: the sender, the text and the reply of one message.
      The reply is sent exactly when `HandleMessage` sends it, and is what it sends. */
  method AnswerMessage(message: Json) returns (data: Result<Json, PyError>)
    ensures data.Success? <==> HandleMessage(message).failure.None?
    ensures data.Success? ==> HandleMessage(message) == Run([data.value], true, None)
    ensures data.Failure? ==> HandleMessage(message) == Run([], true, Some(data.error))
  {
    var m := AsDict(message);
    if m.Failure? {
      return Failure(m.error);
    }
    var number := Get(m.value, "from", Null);
    var text := Util.GetTextUser(message);
    if text.Failure? {
      return Failure(text.error);
    }
    data := GenerateMessage(text.value, number);
  }

  /** `RecivedMessage`: the nested entry, change and message loops, stopping at the first
      exception. */
  method RecivedMessage(isJson: bool, body: Option<Json>) returns (response: Response, sent: seq<Json>)
    ensures (response, sent) == Webhook(isJson, body)
  {
    sent := [];
    if !isJson {
      return Response("no event received - not json", 400), sent;
    }
    if body.None? {
      return InternalError, sent;
    }
    var root := AsDict(body.value);
    if root.Failure? {
      return InternalError, sent;
    }
    var entries := Items(Get(root.value, "entry", Arr([])));
    if entries.Failure? {
      return InternalError, sent;
    }
    var es := entries.value;
    var found := false;
    ghost var total := HandleEntries(es);
    assert Webhook(isJson, body) == (Outcome(total), total.sent);
    ghost var rest := total;
    assert es[0..] == es;
    IdleThen(total);
    for i := 0 to |es|
      invariant rest == HandleEntries(es[i..])
      invariant Then(Run(sent, found, None), rest) == total
    {
      assert es[i..][1..] == es[i + 1..];
      ghost var afterEntry := HandleEntries(es[i + 1..]);
      assert rest == Then(HandleEntry(es[i]), afterEntry);
      var entry := AsDict(es[i]);
      if entry.Failure? {
        Stops(Run(sent, found, None), HandleEntry(es[i]), afterEntry);
        return InternalError, sent;
      }
      var changes := Items(Get(entry.value, "changes", Arr([])));
      if changes.Failure? {
        Stops(Run(sent, found, None), HandleEntry(es[i]), afterEntry);
        return InternalError, sent;
      }
      var cs := changes.value;
      assert cs[0..] == cs;
      rest := Then(HandleChanges(cs[0..]), afterEntry);
      for j := 0 to |cs|
        invariant rest == Then(HandleChanges(cs[j..]), afterEntry)
        invariant Then(Run(sent, found, None), rest) == total
      {
        assert cs[j..][1..] == cs[j + 1..];
        ThenAssociative(HandleChange(cs[j]), HandleChanges(cs[j + 1..]), afterEntry);
        ghost var afterChange := Then(HandleChanges(cs[j + 1..]), afterEntry);
        assert rest == Then(HandleChange(cs[j]), afterChange);
        var messages := ReadChange(cs[j]);
        if messages.Failure? {
          Stops(Run(sent, found, None), HandleChange(cs[j]), afterChange);
          return InternalError, sent;
        }
        var ms := messages.value;
        assert ms[0..] == ms;
        rest := Then(HandleMessages(ms[0..]), afterChange);
        for k := 0 to |ms|
          invariant rest == Then(HandleMessages(ms[k..]), afterChange)
          invariant Then(Run(sent, found, None), rest) == total
        {
          assert ms[k..][1..] == ms[k + 1..];
          ThenAssociative(HandleMessage(ms[k]), HandleMessages(ms[k + 1..]), afterChange);
          ghost var later := Then(HandleMessages(ms[k + 1..]), afterChange);
          assert rest == Then(HandleMessage(ms[k]), later);
          ghost var before := Run(sent, found, None);
          found := true;
          var data := AnswerMessage(ms[k]);
          if data.Failure? {
            Stops(before, HandleMessage(ms[k]), later);
            return InternalError, sent;
          }
          ThenAssociative(before, HandleMessage(ms[k]), later);
          sent := sent + [data.value];
          rest := later;
        }
        IdleThen(afterChange);
        rest := afterChange;
      }
      IdleThen(afterEntry);
      rest := afterEntry;
    }
    assert es[|es|..] == [];
    ThenIdle(Run(sent, found, None));
    if found {
      response := Response("EVENT_RECEIVED", 200);
    } else {
      response := Response("no event received", 200);
    }
  }

  // ---------------------------------------------------------------------------
  // Properties of the traversal

  /** Without an exception, a message was met exactly when a payload was sent. */
  predicate FoundIffSent(run: Run) {
    run.failure.None? ==> (run.found <==> run.sent != [])
  }

  lemma ThenFoundIffSent(a: Run, b: Run)
    requires FoundIffSent(a) && FoundIffSent(b)
    ensures FoundIffSent(Then(a, b))
  {
  }

  lemma {:induction false} MessagesFoundIffSent(messages: seq<Json>)
    ensures FoundIffSent(HandleMessages(messages))
    decreases |messages|
  {
    if messages != [] {
      MessagesFoundIffSent(messages[1..]);
      ThenFoundIffSent(HandleMessage(messages[0]), HandleMessages(messages[1..]));
    }
  }

  lemma {:induction false} ChangesFoundIffSent(changes: seq<Json>)
    ensures FoundIffSent(HandleChanges(changes))
    decreases |changes|
  {
    if changes != [] {
      match ChangeMessages(changes[0])
      case Failure(_) =>
      case Success(messages) => MessagesFoundIffSent(messages);
      ChangesFoundIffSent(changes[1..]);
      ThenFoundIffSent(HandleChange(changes[0]), HandleChanges(changes[1..]));
    }
  }

  lemma {:induction false} EntriesFoundIffSent(entries: seq<Json>)
    ensures FoundIffSent(HandleEntries(entries))
    decreases |entries|
  {
    if entries != [] {
      match EntryChanges(entries[0])
      case Failure(_) =>
      case Success(changes) => ChangesFoundIffSent(changes);
      EntriesFoundIffSent(entries[1..]);
      ThenFoundIffSent(HandleEntry(entries[0]), HandleEntries(entries[1..]));
    }
  }

  /** The webhook's answers: 400 exactly for a request not declared as JSON, 500 for any
      exception, and otherwise 200, saying "EVENT_RECEIVED" exactly when a payload was
      sent; nothing is sent before a 400. */
  lemma WebhookResponses(isJson: bool, body: Option<Json>)
    ensures Webhook(isJson, body).0.status in {200, 400, 500}
    ensures Webhook(isJson, body).0.status == 400 <==> !isJson
    ensures !isJson ==> Webhook(isJson, body).1 == []
    ensures Webhook(isJson, body).0.status == 200 ==>
      (Webhook(isJson, body).0.body == "EVENT_RECEIVED" <==> Webhook(isJson, body).1 != [])
    ensures Webhook(isJson, body).0.status == 200 && Webhook(isJson, body).0.body != "EVENT_RECEIVED" ==>
      Webhook(isJson, body).0.body == "no event received"
  {
    if isJson && body.Some? && body.value.Obj? {
      match Items(Get(body.value.fields, "entry", Arr([])))
      case Failure(_) =>
      case Success(entries) => EntriesFoundIffSent(entries);
    }
  }

  /** A text message from `number`. */
  function TextRecord(number: Json, text: string): Json {
    Obj(map["from" := number, "type" := Str("text"), "text" := Obj(map["body" := Str(text)])])
  }

  /** A notification carrying one message in one change of one entry. */
  function Notification(message: Json): Json {
    var change := Obj(map["value" := Obj(map["messages" := Arr([message])])]);
    Obj(map["entry" := Arr([Obj(map["changes" := Arr([change])])])])
  }

  /** The run of one message whose reply is `reply`. */
  function ReplyRun(reply: Result<Json, PyError>): Run {
    if reply.Success? then Run([reply.value], true, None) else Run([], true, Some(reply.error))
  }

  lemma TextRecordRun(number: Json, text: string)
    ensures HandleMessage(TextRecord(number, text)) == ReplyRun(Reply(Str(text), number))
  {
    assert Util.TextOf(TextRecord(number, text)) == Success(Str(text));
  }

  /** A notification with one message answers as that message's run. */
  lemma NotificationRun(message: Json)
    ensures Webhook(true, Some(Notification(message))) ==
      (Outcome(HandleMessage(message)), HandleMessage(message).sent)
  {
    var change := Obj(map["value" := Obj(map["messages" := Arr([message])])]);
    var entry := Obj(map["changes" := Arr([change])]);
    SingleEntryRun(message, change, entry);
    assert Notification(message) == Obj(map["entry" := Arr([entry])]);
  }

  /** The one entry of a notification runs as its one message. */
  lemma SingleEntryRun(message: Json, change: Json, entry: Json)
    requires change == Obj(map["value" := Obj(map["messages" := Arr([message])])])
    requires entry == Obj(map["changes" := Arr([change])])
    ensures HandleEntries([entry]) == HandleMessage(message)
  {
    assert ChangeMessages(change) == Success([message]);
    assert HandleMessages([message]) == Then(HandleMessage(message), Idle);
    ThenIdle(HandleMessage(message));
    assert HandleChange(change) == HandleMessage(message);
    assert EntryChanges(entry) == Success([change]);
    assert HandleChanges([change]) == Then(HandleChange(change), Idle);
    ThenIdle(HandleChange(change));
    assert HandleEntries([entry]) == Then(HandleEntry(entry), Idle);
    ThenIdle(HandleEntry(entry));
  }

  /** A text with no keyword is echoed: one payload, "EVENT_RECEIVED". */
  lemma EchoedNotification(number: Json, text: string)
    requires forall j :: 0 <= j < |Keywords| ==> !Contains(LowerStr(text), Keywords[j])
    ensures Webhook(true, Some(Notification(TextRecord(number, text))))
      == (Response("EVENT_RECEIVED", 200), [Echo(text, number)])
  {
    EchoWithoutKeywords(text, number);
    TextRecordRun(number, text);
    NotificationRun(TextRecord(number, text));
  }

  /** A text whose first keyword is "button" or "list" makes the webhook answer 500 with
      nothing sent. */
  lemma BrokenKeywordFails(number: Json, text: string, i: nat)
    requires i == 6 || i == 7
    requires Contains(LowerStr(text), Keywords[i])
    requires forall j :: 0 <= j < i ==> !Contains(LowerStr(text), Keywords[j])
    ensures Webhook(true, Some(Notification(TextRecord(number, text)))) == (InternalError, [])
  {
    FirstKeywordWins(text, number, i);
    TextRecordRun(number, text);
    NotificationRun(TextRecord(number, text));
  }
}
