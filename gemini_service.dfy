/** The two calls to the hosted model (services/geminiService.ts): reading a
    menu photo into a list of dishes, and drawing one illustration per dish.
    The model itself is an input: a function from the request the code
    builds to the way the call settles. */
module GeminiService {
  import opened Js
  import opened Types

  // ---------------------------------------------------------------------
  // The structured-output declaration sent with the menu request
  // ---------------------------------------------------------------------

  /** The fragment of the response-schema language the menu schema uses. */
  datatype Schema =
    | SString(enumValues: Option<seq<string>>)
    | SArray(items: Schema)
    | SObject(properties: seq<Property>, required: seq<string>)

  datatype Property = Property(name: string, description: string, schema: Schema)

  const SPICE_ENUM: seq<string> := ["None", "Mild", "Medium", "Spicy", "Very Spicy"]

  const ITEM_SCHEMA: Schema := SObject(
    [ Property("originalName",
        "The name of the menu item in its original language as it appears on the menu.",
        SString(None)),
      Property("translatedName",
        "The English translation of the menu item name.",
        SString(None)),
      Property("description",
        "A detailed, appetizing description of the dish in an easy-to-understand way. Include main ingredients, preparation style, and cultural origin if relevant.",
        SString(None)),
      Property("allergens",
        "A list of common potential allergens present in the dish (e.g., \"Dairy\", \"Gluten\", \"Nuts\", \"Shellfish\"). If none, return an empty array.",
        SArray(SString(None))),
      Property("spiceLevel",
        "The spice level of the dish. Choose one from the provided options.",
        SString(Some(SPICE_ENUM))),
      Property("dietaryNotes",
        "A list of dietary notes like \"Vegetarian\", \"Vegan\", \"Gluten-Free\", \"Halal\". If none apply, return an empty array.",
        SArray(SString(None))),
      Property("pairingSuggestion",
        "A brief suggestion for a drink pairing (e.g., \"Pairs well with a crisp Sauvignon Blanc\" or \"Great with a light lager\"). If no specific pairing, provide a general suggestion like \"Water or a soft drink\".",
        SString(None)) ],
    ["originalName", "translatedName", "description", "allergens", "spiceLevel", "dietaryNotes", "pairingSuggestion"])

  const MENU_SCHEMA: Schema := SArray(ITEM_SCHEMA)

  /** What it means for a parsed value to honour a schema: strings match
      the enumeration if there is one, arrays hold conforming elements,
      objects hold every required key and every declared property they
      hold conforms. Undeclared keys are allowed. */
  predicate Conforms(j: Json, s: Schema)
    decreases s
  {
    match s
    case SString(e) => j.JString? && (e.Some? ==> j.s in e.value)
    case SArray(items) =>
      j.JArray? && forall i :: 0 <= i < |j.elems| ==> Conforms(j.elems[i], items)
    case SObject(props, req) =>
      && j.JObject?
      && (forall k :: k in req ==> Lookup(j.members, k).Some?)
      && (forall i :: 0 <= i < |props| ==> PropertyConforms(j.members, props[i]))
  }

  /** A declared property, if the object holds it, holds a conforming value. */
  predicate PropertyConforms(ms: seq<Member>, p: Property)
    decreases p
  {
    var v := Lookup(ms, p.name);
    v.Some? ==> Conforms(v.value, p.schema)
  }

  /** The schema declares exactly the seven `MenuItem` fields, in the
      type's order, requires every one of them, and its spice enumeration
      holds exactly the five literals of the type, in the same order. */
  lemma SchemaMatchesMenuItem()
    ensures ITEM_SCHEMA.required == MENU_ITEM_FIELDS
    ensures |ITEM_SCHEMA.properties| == |MENU_ITEM_FIELDS|
    ensures forall i :: 0 <= i < |MENU_ITEM_FIELDS| ==> ITEM_SCHEMA.properties[i].name == MENU_ITEM_FIELDS[i]
    ensures |SPICE_ENUM| == |SPICE_LEVELS_IN_ORDER|
    ensures forall i :: 0 <= i < |SPICE_ENUM| ==> SPICE_ENUM[i] == SpiceLabel(SPICE_LEVELS_IN_ORDER[i])
    ensures forall s :: s in SPICE_ENUM <==> ParseSpiceLevel(s).Some?
  {
    forall s ensures s in SPICE_ENUM <==> ParseSpiceLevel(s).Some? {
      if ParseSpiceLevel(s).Some? {
        assert s == SpiceLabel(ParseSpiceLevel(s).value);
      }
    }
  }

  /** A string array conforms to the schema `array of string` exactly when
      its strings can be read off. */
  lemma StringArrayConforms(j: Json)
    ensures Conforms(j, SArray(SString(None))) <==> StringsOf(j).Some?
  {
  }

  /** The schema and the type agree: a parsed value conforms to the item
      schema if and only if it reads as a `MenuItem`. */
  lemma ConformsIffMenuItem(j: Json)
    ensures Conforms(j, ITEM_SCHEMA) <==> ItemOf(j).Some?
  {
    if ItemOf(j).Some? { MenuItemShapeConforms(j); }
    if Conforms(j, ITEM_SCHEMA) { ConformingHasMenuItemShape(j); }
  }

  lemma MenuItemShapeConforms(j: Json)
    requires ItemOf(j).Some?
    ensures Conforms(j, ITEM_SCHEMA)
  {
    var props := ITEM_SCHEMA.properties;
    var ms := j.members;
    var al := Lookup(ms, "allergens");
    var dn := Lookup(ms, "dietaryNotes");
    StringArrayConforms(al.value);
    StringArrayConforms(dn.value);
    forall i | 0 <= i < |props| ensures PropertyConforms(ms, props[i]) {
      assert i == 0 || i == 1 || i == 2 || i == 3 || i == 4 || i == 5 || i == 6;
    }
  }

  lemma ConformingHasMenuItemShape(j: Json)
    requires Conforms(j, ITEM_SCHEMA)
    ensures ItemOf(j).Some?
  {
    var ms := j.members;
    PresentAndConforming(j, 0, "originalName", SString(None));
    PresentAndConforming(j, 1, "translatedName", SString(None));
    PresentAndConforming(j, 2, "description", SString(None));
    PresentAndConforming(j, 3, "allergens", SArray(SString(None)));
    PresentAndConforming(j, 4, "spiceLevel", SString(Some(SPICE_ENUM)));
    PresentAndConforming(j, 5, "dietaryNotes", SArray(SString(None)));
    PresentAndConforming(j, 6, "pairingSuggestion", SString(None));
    StringArrayConforms(Lookup(ms, "allergens").value);
    StringArrayConforms(Lookup(ms, "dietaryNotes").value);
    SchemaMatchesMenuItem();
  }

  /** The i-th declared property of a conforming object is present and
      conforms. */
  lemma PresentAndConforming(j: Json, i: nat, name: string, schema: Schema)
    requires Conforms(j, ITEM_SCHEMA)
    requires i < |ITEM_SCHEMA.properties|
    requires ITEM_SCHEMA.properties[i].name == name && ITEM_SCHEMA.properties[i].schema == schema
    ensures Lookup(j.members, name).Some? && Conforms(Lookup(j.members, name).value, schema)
  {
    assert name in ITEM_SCHEMA.required;
    assert PropertyConforms(j.members, ITEM_SCHEMA.properties[i]);
  }

  /** Every `MenuItem`, written as JSON, is an instance of the schema. */
  lemma MenuItemConforms(m: MenuItem)
    ensures Conforms(AsJson(m), ITEM_SCHEMA)
  {
    ItemOfAsJson(m);
    ConformsIffMenuItem(AsJson(m));
  }

  // ---------------------------------------------------------------------
  // processMenuImage
  // ---------------------------------------------------------------------

  const MENU_MODEL := "gemini-2.5-flash"

  /** The fixed instruction sent with every menu photo. */
  const MENU_PROMPT: string :=
    "You are a friendly food guide. Your job is to make menus easy for everyone to understand. Look at the menu picture provided. For each food or drink item you see, explain it in a simple and clear way.\n"
    + "- **Description:** Describe what the dish is, what's in it, and how it's made. Use everyday words. For example, instead of 'saut\U{221A}\U{00A9}ed', you can say 'cooked in a pan with a little oil'. Make it sound delicious!\n"
    + "- **Spice Level:** Say how spicy it is.\n"
    + "- **Dietary Notes:** Point out if it's \"Vegetarian\", \"Vegan\", etc.\n"
    + "- **Pairing Suggestion:** Suggest a drink that would go well with it.\n"
    + "Your response must be ONLY the JSON array of objects, following the schema. Do not add any other text."

  /** The one message every failure of `processMenuImage` is turned into. */
  const MENU_FAILURE := "The AI had trouble reading the menu. Please try a clearer picture."

  /** A request part: inline image data (whose payload may be `undefined`
      when the caller could not strip a data-URI prefix) or text. */
  datatype RequestPart = InlinePart(data: Option<string>, mimeType: string) | TextPart(text: string)

  datatype Modality = ImageModality

  datatype MenuRequest = MenuRequest(
    model: string, parts: seq<RequestPart>, responseMimeType: string, responseSchema: Schema)

  /** The request `processMenuImage` sends: the image part first, then the
      fixed instruction, asking for JSON that follows the menu schema. */
  function MenuRequestFor(base64Image: Option<string>, mimeType: string): (req: MenuRequest)
    ensures req.parts == [InlinePart(base64Image, mimeType), TextPart(MENU_PROMPT)]
    ensures req.model == MENU_MODEL && req.responseMimeType == "application/json"
    ensures req.responseSchema == MENU_SCHEMA
  {
    MenuRequest(MENU_MODEL, [InlinePart(base64Image, mimeType), TextPart(MENU_PROMPT)],
                "application/json", MENU_SCHEMA)
  }

  /** What `processMenuImage` makes of the way the call settled. A reply is
      `response.text`, which may be missing; `parse` is `JSON.parse`, with
      `None` for text it rejects. Only a top-level array is accepted, and
      then returned element for element; every other case, including a
      rejected call, becomes the one fixed failure message. */
  function NormalizeMenuReply(reply: Outcome<Option<string>>, parse: string -> Option<Json>): (r: Outcome<seq<Json>>)
    ensures r.Ok? <==>
      reply.Ok? && reply.value.Some? &&
      parse(Trim(reply.value.value)).Some? && parse(Trim(reply.value.value)).value.JArray?
    ensures r.Ok? ==> r.value == parse(Trim(reply.value.value)).value.elems
    ensures r.Err? ==> r.thrown == ErrorObject(MENU_FAILURE)
  {
    var failure := Err(ErrorObject(MENU_FAILURE));
    match reply
    case Err(_) => failure
    case Ok(text) =>
      if text.None? then failure
      else
        match parse(Trim(text.value))
        case None => failure
        case Some(parsed) =>
          if parsed.JArray? then Ok(parsed.elems) else failure
  }

  /** `processMenuImage(base64Image, mimeType)`, with the hosted model as
      the function `generate` from request to reply. The one request sent
      carries the image and the fixed instruction; the caller gets the
      array elements of the trimmed reply text, in order, when that text
      parses as an array, and otherwise the fixed failure message, whatever
      went wrong. */
  function ProcessMenuImage(base64Image: Option<string>, mimeType: string,
                            generate: MenuRequest -> Outcome<Option<string>>,
                            parse: string -> Option<Json>): (r: Outcome<seq<Json>>)
    ensures var reply := generate(MenuRequestFor(base64Image, mimeType));
            && (r.Ok? <==> reply.Ok? && reply.value.Some? &&
                           parse(Trim(reply.value.value)).Some? && parse(Trim(reply.value.value)).value.JArray?)
            && (r.Ok? ==> r.value == parse(Trim(reply.value.value)).value.elems)
            && (r.Err? ==> r.thrown == ErrorObject(MENU_FAILURE))
  {
    NormalizeMenuReply(generate(MenuRequestFor(base64Image, mimeType)), parse)
  }

  /** An array reply is accepted however long it is, the empty array
      included, and its elements come back in order and unchanged. */
  lemma ArrayReplyAccepted(text: string, elems: seq<Json>, parse: string -> Option<Json>)
    requires parse(Trim(text)) == Some(JArray(elems))
    ensures NormalizeMenuReply(Ok(Some(text)), parse) == Ok(elems)
  {
  }

  /** A parsed value that is not an array (an object, a string, a number,
      a boolean or null) is a failure. */
  lemma NonArrayReplyRejected(text: string, parse: string -> Option<Json>)
    requires parse(Trim(text)).Some? && !parse(Trim(text)).value.JArray?
    ensures NormalizeMenuReply(Ok(Some(text)), parse) == Err(ErrorObject(MENU_FAILURE))
  {
  }

  /** The message of a rejected call is never passed on. */
  lemma RejectedCallHidesItsMessage(t: Thrown, parse: string -> Option<Json>)
    ensures NormalizeMenuReply(Err(t), parse) == Err(ErrorObject(MENU_FAILURE))
  {
  }

  /** White space around the reply does not matter. */
  lemma SurroundingWhiteSpaceIgnored(text: string, parse: string -> Option<Json>)
    ensures NormalizeMenuReply(Ok(Some(Trim(text))), parse) == NormalizeMenuReply(Ok(Some(text)), parse)
  {
    TrimIdempotent(text);
  }

  // ---------------------------------------------------------------------
  // generateMenuItemImage
  // ---------------------------------------------------------------------

  const IMAGE_MODEL := "gemini-2.5-flash-image"
  const IMAGE_PROMPT_HEAD := "A delicious, professional food photography shot of \""
  const IMAGE_PROMPT_TAIL := "\", plated beautifully on a clean, simple background."
  const DATA_URL_PREFIX := "data:image/png;base64,"
  // Written as two literals so that the verifier sees the first characters.
  const PLACEHOLDER_URL := "https://" + "placehold.co/400x300/292524/e7e5e4/png?text=Image+Not+Found"

  /** The illustration prompt: the item name, verbatim and between double
      quotes, inside the fixed sentence. */
  function ImagePrompt(itemName: string): (prompt: string)
    ensures |prompt| == |IMAGE_PROMPT_HEAD| + |itemName| + |IMAGE_PROMPT_TAIL|
    ensures prompt[..|IMAGE_PROMPT_HEAD|] == IMAGE_PROMPT_HEAD
    ensures prompt[|IMAGE_PROMPT_HEAD|..|IMAGE_PROMPT_HEAD| + |itemName|] == itemName
    ensures prompt[|IMAGE_PROMPT_HEAD| + |itemName|..] == IMAGE_PROMPT_TAIL
  {
    IMAGE_PROMPT_HEAD + itemName + IMAGE_PROMPT_TAIL
  }

  /** Different names give different prompts. */
  lemma ImagePromptInjective(a: string, b: string)
    requires ImagePrompt(a) == ImagePrompt(b)
    ensures a == b
  {
    assert |a| == |b|;
    assert a == ImagePrompt(a)[|IMAGE_PROMPT_HEAD|..|IMAGE_PROMPT_HEAD| + |a|];
  }

  datatype ImageRequest = ImageRequest(model: string, parts: seq<RequestPart>, responseModalities: seq<Modality>)

  function ImageRequestFor(itemName: string): (req: ImageRequest)
    ensures req.parts == [TextPart(ImagePrompt(itemName))]
    ensures req.model == IMAGE_MODEL && req.responseModalities == [ImageModality]
  {
    ImageRequest(IMAGE_MODEL, [TextPart(ImagePrompt(itemName))], [ImageModality])
  }

  /** The shape of an image reply, with every level that may be missing. */
  datatype InlineData = InlineData(data: string, mimeType: string)
  datatype Part = Part(text: Option<string>, inlineData: Option<InlineData>)
  datatype Content = Content(parts: Option<seq<Part>>)
  datatype Candidate = Candidate(content: Option<Content>)
  datatype ImageReply = ImageReply(candidates: Option<seq<Candidate>>)

  /** `response.candidates[0].content.parts`, or `None` where evaluating it
      throws: no candidate list, an empty one, no content or no parts. */
  function ReplyParts(reply: ImageReply): Option<seq<Part>> {
    if reply.candidates.None? || |reply.candidates.value| == 0 then None
    else
      var content := reply.candidates.value[0].content;
      if content.None? then None else content.value.parts
  }

  /** The inline data of the first part that has some. */
  function FirstInlineData(parts: seq<Part>): (r: Option<InlineData>)
    ensures r.None? <==> forall i :: 0 <= i < |parts| ==> parts[i].inlineData.None?
    ensures r.Some? ==>
      exists i :: 0 <= i < |parts| && parts[i].inlineData == r &&
        forall j :: 0 <= j < i ==> parts[j].inlineData.None?
  {
    if |parts| == 0 then None
    else if parts[0].inlineData.Some? then parts[0].inlineData
    else
      var r := FirstInlineData(parts[1..]);
      assert forall i :: 1 <= i < |parts| ==> parts[i] == parts[1..][i - 1];
      r
  }

  /** Parts after the first one with inline data do not matter. */
  lemma {:induction false} FirstInlineDataIgnoresLaterParts(parts: seq<Part>, i: nat, later: seq<Part>)
    requires i < |parts| && parts[i].inlineData.Some?
    ensures FirstInlineData(parts[..i + 1] + later) == FirstInlineData(parts)
  {
    if parts[0].inlineData.None? {
      assert (parts[..i + 1] + later)[1..] == parts[1..][..i] + later;
      FirstInlineDataIgnoresLaterParts(parts[1..], i - 1, later);
    }
  }

  /** The URL `generateMenuItemImage` resolves with for a given way the
      call settled: a PNG data URL for the first inline image, and the
      placeholder for a rejected call, a reply without parts or a reply
      without inline data. */
  function ImageUrlFor(reply: Outcome<ImageReply>): string {
    if reply.Err? then PLACEHOLDER_URL
    else
      var parts := ReplyParts(reply.value);
      if parts.None? then PLACEHOLDER_URL
      else
        var first := FirstInlineData(parts.value);
        if first.None? then PLACEHOLDER_URL else DATA_URL_PREFIX + first.value.data
  }

  /** The result is always one of the two kinds of URL, so the function
      never fails; and it is a data URL exactly when some image came back. */
  lemma ImageUrlForIsDataOrPlaceholder(reply: Outcome<ImageReply>)
    ensures var url := ImageUrlFor(reply);
            url == PLACEHOLDER_URL || (|url| >= |DATA_URL_PREFIX| && url[..|DATA_URL_PREFIX|] == DATA_URL_PREFIX)
    ensures ImageUrlFor(reply) != PLACEHOLDER_URL <==>
            reply.Ok? && ReplyParts(reply.value).Some? && FirstInlineData(ReplyParts(reply.value).value).Some?
  {
    var url := ImageUrlFor(reply);
    assert PLACEHOLDER_URL[..|DATA_URL_PREFIX|] != DATA_URL_PREFIX by {
      assert PLACEHOLDER_URL[0] == 'h';
      assert DATA_URL_PREFIX[0] == 'd';
    }
    if url != PLACEHOLDER_URL {
      assert url[..|DATA_URL_PREFIX|] == DATA_URL_PREFIX;
    }
  }

  /** `generateMenuItemImage(itemName)`: asks the model once, walks the
      parts of the first candidate and returns at the first inline image;
      anything that throws on the way, or finding no image, gives the
      placeholder. */
  method GenerateMenuItemImage(itemName: string, generate: ImageRequest -> Outcome<ImageReply>)
    returns (url: string)
    ensures url == ImageUrlFor(generate(ImageRequestFor(itemName)))
  {
    var reply := generate(ImageRequestFor(itemName));
    if reply.Err? {
      return PLACEHOLDER_URL;
    }
    var parts := ReplyParts(reply.value);
    if parts.None? {
      return PLACEHOLDER_URL;
    }
    for i := 0 to |parts.value|
      invariant forall j :: 0 <= j < i ==> parts.value[j].inlineData.None?
    {
      var part := parts.value[i];
      if part.inlineData.Some? {
        return DATA_URL_PREFIX + part.inlineData.value.data;
      }
    }
    return PLACEHOLDER_URL;
  }
}
