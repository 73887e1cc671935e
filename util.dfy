/**
  The WhatsApp payload helpers: reading the user's text out of an inbound message, and
  composing the outbound message records the Cloud API accepts (plain text, the fixed
  demo payloads, reply buttons and a list menu).
*/
module Util {
  import opened Wrappers
  import opened Json
  import opened PyText

  // ---------------------------------------------------------------------------
  // Inbound text

  /** The text the user sent: the body of a text message, the title of the button or list
      row they picked, and "" for any other kind of message or reply. A missing key or a
      value that is not a dict where one is subscripted raises. */
  function TextOf(message: Json): (r: Result<Json, PyError>)
    ensures Path(message, ["type"]).Failure? ==> r == Failure(Path(message, ["type"]).error)
    ensures Path(message, ["type"]) == Success(Str("text")) ==> r == Path(message, ["text", "body"])
    ensures Path(message, ["type"]) == Success(Str("interactive")) ==>
      match Path(message, ["interactive", "type"])
      case Failure(e) => r == Failure(e)
      case Success(reply) =>
        if reply == Str("button_reply") then r == Path(message, ["interactive", "button_reply", "title"])
        else if reply == Str("list_reply") then r == Path(message, ["interactive", "list_reply", "title"])
        else r == Success(Str(""))
    ensures Path(message, ["type"]).Success? && Path(message, ["type"]).value !in {Str("text"), Str("interactive")} ==>
      r == Success(Str(""))
  {
    var kind :- Path(message, ["type"]);
    if kind == Str("text") then Path(message, ["text", "body"])
    else if kind == Str("interactive") then
      var reply :- Path(message, ["interactive", "type"]);
      if reply == Str("button_reply") then Path(message, ["interactive", "button_reply", "title"])
      else if reply == Str("list_reply") then Path(message, ["interactive", "list_reply", "title"])
      else Success(Str(""))
    else Success(Str(""))
  }

  /** `GetTextUser`: starts from "" and overwrites it in the branch the message's type
      selects. */
  method GetTextUser(message: Json) returns (text: Result<Json, PyError>)
    ensures text == TextOf(message)
  {
    text := Success(Str(""));
    var typeMessage :- Subscript(message, "type");
    if typeMessage == Str("text") {
      var body :- Subscript(message, "text");
      var t :- Subscript(body, "body");
      text := Success(t);
    } else if typeMessage == Str("interactive") {
      var interactiveObject :- Subscript(message, "interactive");
      var typeInteractive :- Subscript(interactiveObject, "type");
      if typeInteractive == Str("button_reply") {
        var reply :- Subscript(interactiveObject, "button_reply");
        var t :- Subscript(reply, "title");
        text := Success(t);
      } else if typeInteractive == Str("list_reply") {
        var reply :- Subscript(interactiveObject, "list_reply");
        var t :- Subscript(reply, "title");
        text := Success(t);
      }
    }
  }

  // ---------------------------------------------------------------------------
  // Simple messages

  /** The same record sent to another recipient. */
  function Readdressed(payload: Json, number: Json): Json
    requires payload.Obj?
  {
    Obj(payload.fields["to" := number])
  }

  /** `TextMessage`: a plain text message. */
  function TextMessage(text: Json, number: Json): (r: Json)
    ensures r.Obj?
    ensures Path(r, ["to"]) == Success(number)
    ensures Path(r, ["type"]) == Success(Str("text"))
    ensures Path(r, ["text", "body"]) == Success(text)
  {
    Obj(map[
      "messaging_product" := Str("whatsapp"),
      "to" := number,
      "type" := Str("text"),
      "text" := Obj(map["body" := text])
    ])
  }

  /** The record every fixed demo payload shares, around its type-specific part. */
  function Addressed(number: Json, kind: string, content: map<string, Json>): (r: Json)
    requires kind !in {"messaging_product", "recipient_type", "to", "type"}
    ensures r.Obj?
    ensures Path(r, ["to"]) == Success(number)
    ensures Path(r, ["type"]) == Success(Str(kind))
    ensures Path(r, [kind]) == Success(Obj(content))
  {
    Obj(map[
      "messaging_product" := Str("whatsapp"),
      "recipient_type" := Str("individual"),
      "to" := number,
      "type" := Str(kind),
      kind := Obj(content)
    ])
  }

  // The type-specific parts of the fixed payloads.
  const TextFormatContent: map<string, Json> :=
    map["body" := Str("*Hola usuario* \n_Hola usaurio_\n ~Hola usaurio~")]
  const ImageContent: map<string, Json> :=
    map["link" := Str("https://kinsta.com/es/wp-content/uploads/sites/8/2019/09/jpg-vs-jpeg.jpg")]
  const AudioContent: map<string, Json> :=
    map["link" := Str("https://dl.dropboxusercontent.com/s/eyb9txkepv0azqx/Beethoven%20-%20Variations%20on%20Ein%20M%C3%A4dchen%20oder%20Weibchen.mp3")]
  const VideoContent: map<string, Json> :=
    map["link" := Str("https://jumpshare.com/s/B7syaRF6S30Am9cu76JM")]
  const DocumentContent: map<string, Json> :=
    map["link" := Str("https://docs.google.com/spreadsheets/d/e/2PACX-1vQ7Hu_8JjnqYrRr4CJBw5uH4YWnsTyT4Ax_hH2hvrcop8wHf-soFUU3Jbl6vc1tzg/pub?output=xlsx")]

  /** `TextFormatMessage`: a text showing WhatsApp's bold, italic and strike-through markup. */
  function TextFormatMessage(number: Json): (r: Json)
    ensures Path(r, ["to"]) == Success(number)
    ensures Path(r, ["type"]) == Success(Str("text"))
    ensures Path(r, ["text"]) == Success(Obj(TextFormatContent))
  {
    Addressed(number, "text", TextFormatContent)
  }

  /** `ImageMessage`: a fixed JPEG by link. */
  function ImageMessage(number: Json): (r: Json)
    ensures Path(r, ["to"]) == Success(number)
    ensures Path(r, ["type"]) == Success(Str("image"))
    ensures Path(r, ["image"]) == Success(Obj(ImageContent))
  {
    Addressed(number, "image", ImageContent)
  }

  /** `AudioMessage`: a fixed MP3 by link. */
  function AudioMessage(number: Json): (r: Json)
    ensures Path(r, ["to"]) == Success(number)
    ensures Path(r, ["type"]) == Success(Str("audio"))
    ensures Path(r, ["audio"]) == Success(Obj(AudioContent))
  {
    Addressed(number, "audio", AudioContent)
  }

  /** `VideoMessage`: a fixed video by link. */
  function VideoMessage(number: Json): (r: Json)
    ensures Path(r, ["to"]) == Success(number)
    ensures Path(r, ["type"]) == Success(Str("video"))
    ensures Path(r, ["video"]) == Success(Obj(VideoContent))
  {
    Addressed(number, "video", VideoContent)
  }

  /** `DocumentMessage`: a fixed spreadsheet by link. */
  function DocumentMessage(number: Json): (r: Json)
    ensures Path(r, ["to"]) == Success(number)
    ensures Path(r, ["type"]) == Success(Str("document"))
    ensures Path(r, ["document"]) == Success(Obj(DocumentContent))
  {
    Addressed(number, "document", DocumentContent)
  }

  /** `LocationMessage`: the dealership's fixed location; unlike the others it carries no
      `recipient_type`. */
  function LocationMessage(number: Json): (r: Json)
    ensures r.Obj? && "recipient_type" !in r.fields
    ensures Path(r, ["to"]) == Success(number)
    ensures Path(r, ["type"]) == Success(Str("location"))
  {
    Obj(map[
      "messaging_product" := Str("whatsapp"),
      "to" := number,
      "type" := Str("location"),
      "location" := Obj(map[
        "latitude" := Str("-11.991441593959951"),
        "longitude" := Str("-77.01168136574333"),
        "name" := Str("Isuzu Gaby"),
        "address" := Str("Av. Próceres de la Independencia 2399, San Juan de Lurigancho 15419")
      ])
    ])
  }

  /** A fixed payload depends on the recipient only: readdressing one gives the other. */
  lemma AddressedOnlyByNumber(number: Json, other: Json, kind: string, content: map<string, Json>)
    requires kind !in {"messaging_product", "recipient_type", "to", "type"}
    ensures Addressed(number, kind, content) == Readdressed(Addressed(other, kind, content), number)
  {
    var a, b := Addressed(number, kind, content).fields, Readdressed(Addressed(other, kind, content), number).fields;
    assert a.Keys == b.Keys;
  }

  /** The text message depends on its arguments only where they are placed. */
  lemma TextMessageOnlyByArguments(number: Json, other: Json, text: Json, otherText: Json)
    ensures TextMessage(text, number)
      == Obj(Readdressed(TextMessage(otherText, other), number).fields["text" := Obj(map["body" := text])])
  {
    var t, u := TextMessage(text, number).fields,
      Readdressed(TextMessage(otherText, other), number).fields["text" := Obj(map["body" := text])];
    assert t.Keys == u.Keys;
  }

  /** Each fixed payload depends on the recipient only. */
  lemma FixedPayloadsOnlyByNumber(number: Json, other: Json)
    ensures TextFormatMessage(number) == Readdressed(TextFormatMessage(other), number)
    ensures ImageMessage(number) == Readdressed(ImageMessage(other), number)
    ensures AudioMessage(number) == Readdressed(AudioMessage(other), number)
    ensures VideoMessage(number) == Readdressed(VideoMessage(other), number)
    ensures DocumentMessage(number) == Readdressed(DocumentMessage(other), number)
  {
    AddressedOnlyByNumber(number, other, "text", TextFormatContent);
    AddressedOnlyByNumber(number, other, "image", ImageContent);
    AddressedOnlyByNumber(number, other, "audio", AudioContent);
    AddressedOnlyByNumber(number, other, "video", VideoContent);
    AddressedOnlyByNumber(number, other, "document", DocumentContent);
  }

  /** The location payload depends on the recipient only. */
  lemma LocationOnlyByNumber(number: Json, other: Json)
    ensures LocationMessage(number) == Readdressed(LocationMessage(other), number)
  {
    var l, m := LocationMessage(number).fields, Readdressed(LocationMessage(other), number).fields;
    assert l.Keys == m.Keys;
  }

  // ---------------------------------------------------------------------------
  // Reply buttons

  /** Button `i` of a reply-button message. */
  function Button(i: nat, title: Json): (r: Json)
    ensures Path(r, ["type"]) == Success(Str("reply"))
    ensures Path(r, ["reply", "id"]) == Success(Str("btn_" + Decimal(i)))
    ensures Path(r, ["reply", "title"]) == Success(title)
  {
    Obj(map[
      "type" := Str("reply"),
      "reply" := Obj(map["id" := Str("btn_" + Decimal(i)), "title" := title])
    ])
  }

  /** One button per entry of `titles`, in order, numbered from 0. */
  function Buttons(titles: seq<Json>): (bs: seq<Json>)
    ensures |bs| == |titles|
    ensures forall i :: 0 <= i < |titles| ==> bs[i] == Button(i, titles[i])
  {
    if titles == [] then []
    else Buttons(titles[..|titles| - 1]) + [Button(|titles| - 1, titles[|titles| - 1])]
  }

  /** Different buttons of one message have different ids. */
  lemma ButtonIdsDistinct(titles: seq<Json>, i: nat, j: nat)
    requires i < |titles| && j < |titles| && i != j
    ensures Path(Buttons(titles)[i], ["reply", "id"]) != Path(Buttons(titles)[j], ["reply", "id"])
  {
    if Decimal(i) == Decimal(j) {
      DecimalInjective(i, j);
    }
    assert ("btn_" + Decimal(i))[4..] == Decimal(i) && ("btn_" + Decimal(j))[4..] == Decimal(j);
  }

  /** The interactive reply-button message around the given buttons. */
  function ButtonsPayload(number: Json, bodyText: Json, buttons: seq<Json>): (r: Json)
    ensures Path(r, ["to"]) == Success(number)
    ensures Path(r, ["type"]) == Success(Str("interactive"))
    ensures Path(r, ["interactive", "type"]) == Success(Str("button"))
    ensures Path(r, ["interactive", "body", "text"]) == Success(bodyText)
    ensures Path(r, ["interactive", "action", "buttons"]) == Success(Arr(buttons))
  {
    Addressed(number, "interactive", map[
      "type" := Str("button"),
      "body" := Obj(map["text" := bodyText]),
      "action" := Obj(map["buttons" := Arr(buttons)])
    ])
  }

  /** `ButtonsMessage`: one button per entry, in order, with no cap at three buttons. */
  method ButtonsMessage(number: Json, bodyText: Json, buttonsList: seq<Json>) returns (data: Json)
    ensures data == ButtonsPayload(number, bodyText, Buttons(buttonsList))
  {
    var buttons: seq<Json> := [];
    for i := 0 to |buttonsList|
      invariant buttons == Buttons(buttonsList[..i])
    {
      assert buttonsList[..i + 1][..i] == buttonsList[..i];
      buttons := buttons + [Button(i, buttonsList[i])];
    }
    assert buttonsList[..|buttonsList|] == buttonsList;
    data := ButtonsPayload(number, bodyText, buttons);
  }

  // ---------------------------------------------------------------------------
  // List menu

  /** The most characters of a row description WhatsApp accepts. */
  const DescriptionLimit := 70

  /** `short` is what `long[:70]` keeps: its first 70 elements, or all of a shorter one. */
  predicate Truncation<T(==)>(short: seq<T>, long: seq<T>) {
    short <= long && |short| == (if |long| < DescriptionLimit then |long| else DescriptionLimit)
  }

  /** `v[:70]`: a string or list keeps its first 70 elements; other values cannot be
      sliced. */
  function Truncated(v: Json): (r: Result<Json, PyError>)
    ensures v.Str? ==> r.Success? && r.value.Str? && Truncation(r.value.s, v.s)
    ensures v.Arr? ==> r.Success? && r.value.Arr? && Truncation(r.value.items, v.items)
    ensures !v.Str? && !v.Arr? ==> r == Failure(TypeError)
  {
    match v
    case Str(s) => Success(Str(if |s| < DescriptionLimit then s else s[..DescriptionLimit]))
    case Arr(items) => Success(Arr(if |items| < DescriptionLimit then items else items[..DescriptionLimit]))
    case _ => Failure(TypeError)
  }

  /** The description of an option, "" when it has none. */
  function Description(option: map<string, Json>): Json {
    Get(option, "description", Str(""))
  }

  /** The list row for one option: its id and title copied, its description truncated. */
  function Row(option: Json): (r: Result<Json, PyError>)
    ensures r.Success? <==>
      Path(option, ["id"]).Success? && Path(option, ["title"]).Success?
      && Truncated(Description(option.fields)).Success?
    ensures r.Success? ==>
      Path(r.value, ["id"]) == Path(option, ["id"])
      && Path(r.value, ["title"]) == Path(option, ["title"])
      && Path(r.value, ["description"]) == Truncated(Description(option.fields))
  {
    var id :- Subscript(option, "id");
    var title :- Subscript(option, "title");
    var description :- Truncated(Description(option.fields));
    Success(Obj(map["id" := id, "title" := title, "description" := description]))
  }

  /** The rows for the options, in order; the first option that has no row raises. */
  function Rows(options: seq<Json>): (r: Result<seq<Json>, PyError>)
    ensures r.Success? ==> |r.value| == |options|
  {
    Collect(Row, options)
  }

  /** One row per option, in order, with the option's id and title and its truncated
      description; when an option has no row, the exception is that of the first such
      option. */
  lemma RowsCopyOptions(options: seq<Json>)
    ensures Rows(options).Success? <==> forall i :: 0 <= i < |options| ==> Row(options[i]).Success?
    ensures Rows(options).Success? ==> forall i :: 0 <= i < |options| ==>
      Path(Rows(options).value[i], ["id"]) == Path(options[i], ["id"])
      && Path(Rows(options).value[i], ["title"]) == Path(options[i], ["title"])
      && Path(Rows(options).value[i], ["description"]) == Truncated(Description(options[i].fields))
    ensures Rows(options).Failure? ==>
      exists i :: 0 <= i < |options| && Row(options[i]) == Failure(Rows(options).error)
        && forall j :: 0 <= j < i ==> Row(options[j]).Success?
  {
    CollectMeaning(Row, options);
  }

  /** The action of a list message: its button label and its one section. */
  function ListAction(rows: seq<Json>, titleList: Json): (r: Json)
    ensures Path(r, ["button"]) == Success(titleList)
    ensures Path(r, ["sections"]) == Success(Arr([Obj(map["title" := Str("Catálogo"), "rows" := Arr(rows)])]))
  {
    Obj(map[
      "button" := titleList,
      "sections" := Arr([Obj(map["title" := Str("Catálogo"), "rows" := Arr(rows)])])
    ])
  }

  /** The interactive part of a list message. */
  function ListInteractive(headerText: Json, bodyText: Json, action: Json): (r: Json)
    ensures Path(r, ["type"]) == Success(Str("list"))
    ensures Path(r, ["header", "text"]) == Success(headerText)
    ensures Path(r, ["body", "text"]) == Success(bodyText)
    ensures Path(r, ["footer", "text"]) == Success(Str("Seleccione una opción"))
    ensures Path(r, ["action"]) == Success(action)
  {
    Obj(map[
      "type" := Str("list"),
      "header" := Obj(map["type" := Str("text"), "text" := headerText]),
      "body" := Obj(map["text" := bodyText]),
      "footer" := Obj(map["text" := Str("Seleccione una opción")]),
      "action" := action
    ])
  }

  /** The interactive list message around the given rows. */
  function ListPayload(number: Json, headerText: Json, bodyText: Json, rows: seq<Json>, titleList: Json): (r: Json)
    ensures Path(r, ["to"]) == Success(number)
    ensures Path(r, ["type"]) == Success(Str("interactive"))
    ensures Path(r, ["interactive"]) == Success(ListInteractive(headerText, bodyText, ListAction(rows, titleList)))
  {
    Obj(map[
      "messaging_product" := Str("whatsapp"),
      "to" := number,
      "type" := Str("interactive"),
      "interactive" := ListInteractive(headerText, bodyText, ListAction(rows, titleList))
    ])
  }

  /** `ListMessage`: one row per option, in order, inside the single "Catálogo" section; an
      option without an id or title, or with a description that cannot be sliced, raises. */
  method ListMessage(number: Json, headerText: Json, bodyText: Json, optionsList: seq<Json>,
                     titleList: Json := Str("Opciones"))
    returns (result: Result<Json, PyError>)
    ensures Rows(optionsList).Failure? ==> result == Failure(Rows(optionsList).error)
    ensures Rows(optionsList).Success? ==>
      result == Success(ListPayload(number, headerText, bodyText, Rows(optionsList).value, titleList))
  {
    var rows: seq<Json> := [];
    for i := 0 to |optionsList|
      invariant Rows(optionsList[..i]) == Success(rows)
    {
      CollectSnoc(Row, optionsList, i);
      var row := Row(optionsList[i]);
      if row.Failure? {
        CollectFailedPrefix(Row, optionsList, i + 1);
        return Failure(row.error);
      }
      rows := rows + [row.value];
    }
    assert optionsList[..|optionsList|] == optionsList;
    result := Success(ListPayload(number, headerText, bodyText, rows, titleList));
  }
}
