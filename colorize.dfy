/**
 * The colorize serverless function (netlify/functions/colorize.ts): method
 * gating, request validation, prompt assembly from the colour-scheme table,
 * picking the first inline image out of the model's reply, and the mapping of
 * every failure to a 500 response.
 *
 * The environment's API key, the request text, JSON parsing, the generative
 * model and the elapsed time are all parameters.
 */
module Colorize {
  import opened Wrappers
  import opened Thrown
  import opened Strings
  import opened Http
  import Artifacts

  // ---------------------------------------------------------------------------
  // Colour schemes and their prompts
  // ---------------------------------------------------------------------------

  /** The schemes the server accepts; `Weathered` is one more than the client offers. */
  datatype Scheme = Roman | Greek | Egyptian | Mesopotamian | Weathered | Original | Custom

  function SchemeName(c: Scheme): string
  {
    match c
    case Roman => "roman"
    case Greek => "greek"
    case Egyptian => "egyptian"
    case Mesopotamian => "mesopotamian"
    case Weathered => "weathered"
    case Original => "original"
    case Custom => "custom"
  }

  /** The list membership test on the seven scheme names. */
  function ParseScheme(name: string): (r: Option<Scheme>)
  {
    if name == "roman" then Some(Roman)
    else if name == "greek" then Some(Greek)
    else if name == "egyptian" then Some(Egyptian)
    else if name == "mesopotamian" then Some(Mesopotamian)
    else if name == "weathered" then Some(Weathered)
    else if name == "original" then Some(Original)
    else if name == "custom" then Some(Custom)
    else None
  }

  /** A name is accepted exactly when it is the name of a scheme, and it means that scheme. */
  lemma ParseSchemeRoundTrip(c: Scheme, name: string)
    ensures ParseScheme(SchemeName(c)) == Some(c)
    ensures ParseScheme(name) == Some(c) <==> name == SchemeName(c)
  {
  }

  /**
   * Every scheme the client can send is accepted, under the same name; the
   * server's `weathered` is not a name the client's type has.
   */
  lemma ClientSchemesAccepted(c: Artifacts.ColorScheme)
    ensures ParseScheme(Artifacts.SchemeName(c)).Some?
    ensures SchemeName(ParseScheme(Artifacts.SchemeName(c)).value) == Artifacts.SchemeName(c)
    ensures Artifacts.SchemeName(c) != SchemeName(Weathered)
  {
  }

  /** Lines joined by line breaks, as a multi-line template literal writes them. */
  function JoinLines(lines: seq<string>): string
  {
    if lines == [] then "" else if |lines| == 1 then lines[0] else lines[0] + "\n" + JoinLines(lines[1..])
  }

  /** The table of per-scheme prompts, written line by line; `custom` has an empty entry. */
  function SchemePrompt(c: Scheme): string
  {
    match c
    case Roman =>
      JoinLines([
        "Colorize this archaeological artifact using historically accurate Ancient Roman colors:",
        "- Vermillion and crimson reds (from cinnabar and iron oxide)",
        "- Egyptian blue (calcium copper silicate)",
        "- Gold leaf accents on important areas",
        "- Terracotta and ochre earth tones",
        "- Deep purple (Tyrian purple for prestigious items)",
        "Apply colors as they would have appeared when newly made in Ancient Rome."])
    case Greek =>
      JoinLines([
        "Colorize this archaeological artifact using historically accurate Ancient Greek colors:",
        "- Terracotta orange (natural clay color)",
        "- Black glaze (black-figure pottery style)",
        "- Mediterranean blue for sea-related items",
        "- White slip for backgrounds",
        "- Red-figure style with reserved red on black",
        "Apply colors consistent with Classical Greek pottery and sculpture."])
    case Egyptian =>
      JoinLines([
        "Colorize this archaeological artifact using historically accurate Ancient Egyptian colors:",
        "- Lapis lazuli blue (sacred color of the sky and Nile)",
        "- Gold (sacred color of the sun god Ra)",
        "- Turquoise and Egyptian faience blue",
        "- Emerald green (color of rebirth and vegetation)",
        "- Red ochre (color of life and vitality)",
        "- Black (color of fertile Nile soil)",
        "Apply colors as they would have appeared in Ancient Egyptian art."])
    case Mesopotamian =>
      JoinLines([
        "Colorize this archaeological artifact using historically accurate Ancient Mesopotamian colors:",
        "- Ultramarine and lapis lazuli blue (precious and sacred)",
        "- Gold and bronze metallic tones",
        "- Brick red and terracotta (ziggurat colors)",
        "- Bitumen black",
        "- White limestone accents",
        "Apply colors consistent with Babylonian and Assyrian art."])
    case Weathered =>
      JoinLines([
        "Apply historically plausible colors to this artifact, but show them as weathered and aged:",
        "- Muted, faded versions of original pigments",
        "- Visible patina and surface degradation",
        "- Some original color remaining in protected areas",
        "- Natural aging and oxidation effects",
        "Show how the artifact might look with its original colors partially preserved."])
    case Original =>
      JoinLines([
        "Analyze this archaeological artifact and apply the most historically accurate colors based on:",
        "- The artifact's apparent culture and time period",
        "- Typical pigments and dyes available to that civilization",
        "- Common color schemes used for this type of object",
        "- Archaeological evidence of original coloring",
        "Apply colors as they would have originally appeared."])
    case Custom => ""
  }

  // ---------------------------------------------------------------------------
  // Request validation
  // ---------------------------------------------------------------------------

  /**
   * A validated request. `customPrompt` keeps the property only when it is a
   * string; `includeRestoration` is always a boolean.
   */
  datatype ColorizeRequest = ColorizeRequest(
    imageBase64: string,
    colorScheme: Scheme,
    customPrompt: Option<string>,
    includeRestoration: bool)

  /** `validateRequest`: the request it returns, or the message of the error it throws. */
  function ValidateRequest(body: Json): (r: Result<ColorizeRequest, string>)
    ensures !IsObject(body) ==> r == Err("Invalid request body")
    ensures IsObject(body) && !NonEmptyString(Field(body, "imageBase64")) ==>
      r == Err("Missing or invalid imageBase64")
    ensures IsObject(body) && NonEmptyString(Field(body, "imageBase64")) && !NonEmptyString(Field(body, "colorScheme")) ==>
      r == Err("Missing or invalid colorScheme")
    ensures r.Ok? ==> Field(body, "imageBase64") == Some(JString(r.value.imageBase64)) && r.value.imageBase64 != ""
    ensures r.Ok? ==> Field(body, "colorScheme") == Some(JString(SchemeName(r.value.colorScheme)))
    ensures r.Ok? && r.value.colorScheme == Custom ==>
      r.value.customPrompt.Some? && r.value.customPrompt.value != ""
    ensures r.Ok? ==> r.value.customPrompt == StringValue(Field(body, "customPrompt"))
    ensures r.Ok? ==> r.value.includeRestoration == Truthy(Field(body, "includeRestoration"))
  {
    if !IsObject(body) then Err("Invalid request body")
    else
      var image := Field(body, "imageBase64");
      if !NonEmptyString(image) then Err("Missing or invalid imageBase64")
      else
        var scheme := Field(body, "colorScheme");
        if !NonEmptyString(scheme) then Err("Missing or invalid colorScheme")
        else match ParseScheme(scheme.value.s)
          case None => Err("Invalid colorScheme: " + scheme.value.s)
          case Some(c) =>
            var custom := Field(body, "customPrompt");
            if c == Custom && !NonEmptyString(custom) then Err("Custom color scheme requires customPrompt")
            else Ok(ColorizeRequest(image.value.s, c, StringValue(custom), Truthy(Field(body, "includeRestoration"))))
  }

  /**
   * The converse: an object with a non-empty image string and a scheme name,
   * and a non-empty prompt string when the scheme is `custom`, is accepted.
   */
  lemma ValidRequestAccepted(body: Json, image: string, c: Scheme)
    requires IsObject(body)
    requires Field(body, "imageBase64") == Some(JString(image)) && image != ""
    requires Field(body, "colorScheme") == Some(JString(SchemeName(c)))
    requires c == Custom ==> NonEmptyString(Field(body, "customPrompt"))
    ensures ValidateRequest(body) == Ok(ColorizeRequest(image, c,
      StringValue(Field(body, "customPrompt")), Truthy(Field(body, "includeRestoration"))))
  {
    ParseSchemeRoundTrip(c, SchemeName(c));
  }

  /** A non-empty scheme string that names no scheme is refused with its own text in the message. */
  lemma UnknownSchemeRejected(body: Json, name: string)
    requires IsObject(body) && NonEmptyString(Field(body, "imageBase64"))
    requires Field(body, "colorScheme") == Some(JString(name)) && name != ""
    requires forall c: Scheme :: name != SchemeName(c)
    ensures ValidateRequest(body) == Err("Invalid colorScheme: " + name)
  {
    if ParseScheme(name).Some? {
      ParseSchemeRoundTrip(ParseScheme(name).value, name);
    }
  }

  /** `custom` without a non-empty prompt string is refused, whatever else the body holds. */
  lemma CustomNeedsPrompt(body: Json, image: string)
    requires IsObject(body) && NonEmptyString(Field(body, "imageBase64"))
    requires Field(body, "colorScheme") == Some(JString("custom"))
    requires !NonEmptyString(Field(body, "customPrompt"))
    ensures ValidateRequest(body) == Err("Custom color scheme requires customPrompt")
  {
  }

  // ---------------------------------------------------------------------------
  // Prompt assembly
  // ---------------------------------------------------------------------------

  const RestorationParagraph: string :=
    "\n\n" + JoinLines([
      "Also restore and repair any visible damage:",
      "- Fill in cracks and missing areas",
      "- Repair chips and erosion",
      "- Enhance clarity while maintaining authenticity",
      "- Remove dirt and discoloration artifacts"])

  const ImportantSuffix: string :=
    "\n\n" + JoinLines([
      "IMPORTANT: This is for archaeological research and education.",
      "The colorization is speculative and based on historical evidence.",
      "Output a high-quality colorized version of the artifact image.",
      "Maintain the original composition and details while adding color."])

  /** The prompt's opening: the caller's own text for `custom`, the table entry otherwise. */
  function BasePrompt(req: ColorizeRequest): string
    requires req.colorScheme == Custom ==> req.customPrompt.Some?
  {
    if req.colorScheme == Custom then req.customPrompt.value else SchemePrompt(req.colorScheme)
  }

  /** The opening, then the restoration paragraph when asked for, then the fixed closing. */
  function Assemble(opening: string, includeRestoration: bool): string
  {
    opening + (if includeRestoration then RestorationParagraph else "") + ImportantSuffix
  }

  /** `buildPrompt`. */
  function BuildPrompt(req: ColorizeRequest): string
    requires req.colorScheme == Custom ==> req.customPrompt.Some?
  {
    Assemble(BasePrompt(req), req.includeRestoration)
  }

  /** How a text made of three consecutive pieces can be taken apart again. */
  lemma ThreePieces(a: string, b: string, c: string)
    ensures |a + b + c| == |a| + |b| + |c|
    ensures (a + b + c)[..|a|] == a
    ensures (a + b + c)[|a|..|a| + |b|] == b
    ensures EndsWith(a + b + c, c)
  {
    assert (a + b + c)[..|a|] == a;
    assert (a + b + c)[|a|..|a| + |b|] == b;
    assert (a + b + c)[|a + b + c| - |c|..] == c;
  }

  /**
   * Whatever the opening, the prompt starts with it, holds the restoration
   * paragraph right after it exactly when restoration was asked for (otherwise
   * it is only as long as opening and closing together), and always ends with
   * the fixed closing paragraph.
   */
  lemma PromptLayout(opening: string, includeRestoration: bool)
    ensures var r := Assemble(opening, includeRestoration);
      && |r| == |opening| + (if includeRestoration then |RestorationParagraph| else 0) + |ImportantSuffix|
      && r[..|opening|] == opening
      && (includeRestoration ==> r[|opening|..|opening| + |RestorationParagraph|] == RestorationParagraph)
      && EndsWith(r, ImportantSuffix)
  {
    ThreePieces(opening, if includeRestoration then RestorationParagraph else "", ImportantSuffix);
  }

  /** Switching restoration on only inserts the restoration paragraph before the closing. */
  lemma RestorationOnlyInserts(opening: string)
    ensures Assemble(opening, true) == Assemble(opening, false)[..|opening|] + RestorationParagraph + ImportantSuffix
  {
    ThreePieces(opening, "", ImportantSuffix);
  }

  /** The opening is the caller's text for `custom` and the scheme's table entry otherwise. */
  lemma PromptOpening(req: ColorizeRequest)
    requires req.colorScheme == Custom ==> req.customPrompt.Some?
    ensures req.colorScheme == Custom ==> BuildPrompt(req)[..|req.customPrompt.value|] == req.customPrompt.value
    ensures req.colorScheme != Custom ==>
      BuildPrompt(req)[..|SchemePrompt(req.colorScheme)|] == SchemePrompt(req.colorScheme)
  {
    PromptLayout(BasePrompt(req), req.includeRestoration);
  }

  // ---------------------------------------------------------------------------
  // The model's reply
  // ---------------------------------------------------------------------------

  /** A part of the model's first candidate: text, or inline data that may carry an image. */
  datatype Part = TextPart(text: string) | InlineDataPart(data: Option<string>)

  /** How the call to the model ended: it threw, or it answered with the first candidate's parts, if any. */
  datatype ModelReply = ModelThrew(thrown: Thrown) | ModelAnswered(parts: Option<seq<Part>>)

  predicate HasImage(p: Part)
  {
    p.InlineDataPart? && p.data.Some? && p.data.value != ""
  }

  /** The data of the first part that carries an image, if any part does. */
  function FirstImage(parts: seq<Part>): Option<string>
  {
    if parts == [] then None
    else if HasImage(parts[0]) then Some(parts[0].data.value)
    else FirstImage(parts[1..])
  }

  /** `FirstImage` finds an image exactly when some part has one, and then it is the earliest. */
  lemma {:induction false} FirstImageIsEarliest(parts: seq<Part>)
    ensures FirstImage(parts).None? <==> forall k :: 0 <= k < |parts| ==> !HasImage(parts[k])
    ensures FirstImage(parts).Some? ==>
      exists k :: (0 <= k < |parts| && HasImage(parts[k]) && parts[k].data.value == FirstImage(parts).value
        && forall j :: 0 <= j < k ==> !HasImage(parts[j]))
  {
    if parts != [] && !HasImage(parts[0]) {
      var rest := parts[1..];
      FirstImageIsEarliest(rest);
      if FirstImage(rest).Some? {
        var k :| 0 <= k < |rest| && HasImage(rest[k]) && rest[k].data.value == FirstImage(rest).value
          && forall j :: 0 <= j < k ==> !HasImage(rest[j]);
        assert HasImage(parts[k + 1]) && parts[k + 1].data.value == FirstImage(parts).value;
        forall j | 0 <= j < k + 1 ensures !HasImage(parts[j]) {
          if j > 0 { assert parts[j] == rest[j - 1]; }
        }
      } else {
        forall k | 0 <= k < |parts| ensures !HasImage(parts[k]) {
          if k > 0 { assert parts[k] == rest[k - 1]; }
        }
      }
    }
  }

  /** The loop over the parts that stops at the first image. */
  method FirstInlineImage(parts: seq<Part>) returns (image: Option<string>)
    ensures image == FirstImage(parts)
    ensures image.None? <==> forall k :: 0 <= k < |parts| ==> !HasImage(parts[k])
    ensures image.Some? ==>
      exists k :: (0 <= k < |parts| && HasImage(parts[k]) && parts[k].data.value == image.value
        && forall j :: 0 <= j < k ==> !HasImage(parts[j]))
  {
    FirstImageIsEarliest(parts);
    image := None;
    var i := 0;
    while i < |parts|
      invariant 0 <= i <= |parts|
      invariant forall j :: 0 <= j < i ==> !HasImage(parts[j])
    {
      var part := parts[i];
      if part.InlineDataPart? && part.data.Some? && part.data.value != "" {
        image := Some(part.data.value);
        break;
      }
      i := i + 1;
    }
  }

  // ---------------------------------------------------------------------------
  // The handler
  // ---------------------------------------------------------------------------

  const ModelName: string := "gemini-2.0-flash-exp"
  const MissingKeyMessage: string := "GOOGLE_AI_API_KEY environment variable not set"
  const NoImageMessage: string := "No image in AI response"

  datatype ColorizeBody =
    | NoContent
    | Failure(error: string, errorTimeMs: Option<nat>)
    | Colorized(colorizedImageBase64: string, methodName: string, processingTimeMs: nat)

  /**
   * What the `try` block of a POST ends with: the colorized image, or what it threw.
   * `body` is the raw request text and `parse` is `JSON.parse`. `generate` is
   * the model: it is sent `BuildPrompt(req)` and `req.imageBase64`, so its reply
   * is given as a function of the validated request `req`.
   */
  function Outcome(apiKey: Option<string>, body: Option<string>,
                   parse: string -> Result<Json, Thrown>,
                   generate: ColorizeRequest -> ModelReply): Result<string, Thrown>
  {
    if !(apiKey.Some? && apiKey.value != "") then Err(ErrorObject(MissingKeyMessage))
    else match parse(OrDefault(body, "{}"))
      case Err(t) => Err(t)
      case Ok(json) =>
        match ValidateRequest(json)
        case Err(msg) => Err(ErrorObject(msg))
        case Ok(req) =>
          match generate(req)
          case ModelThrew(t) => Err(t)
          case ModelAnswered(parts) =>
            match FirstImage(if parts.Some? then parts.value else [])
            case None => Err(ErrorObject(NoImageMessage))
            case Some(image) => Ok(image)
  }

  /** A request the validation refuses never reaches the model: the outcome is the same whatever the model does. */
  lemma RejectedBeforeModel(apiKey: Option<string>, body: Option<string>,
                            parse: string -> Result<Json, Thrown>,
                            g1: ColorizeRequest -> ModelReply, g2: ColorizeRequest -> ModelReply)
    requires parse(OrDefault(body, "{}")).Ok? && ValidateRequest(parse(OrDefault(body, "{}")).value).Err?
    ensures Outcome(apiKey, body, parse, g1) == Outcome(apiKey, body, parse, g2)
    ensures Outcome(apiKey, body, parse, g1).Err?
  {
  }

  /** A success means a key was set, the request validated, and the image is a non-empty part of the reply. */
  lemma SuccessMeansValidRequest(apiKey: Option<string>, body: Option<string>,
                                 parse: string -> Result<Json, Thrown>,
                                 generate: ColorizeRequest -> ModelReply)
    requires Outcome(apiKey, body, parse, generate).Ok?
    ensures apiKey.Some? && apiKey.value != ""
    ensures parse(OrDefault(body, "{}")).Ok?
    ensures ValidateRequest(parse(OrDefault(body, "{}")).value).Ok?
    ensures Outcome(apiKey, body, parse, generate).value != ""
  {
    var req := ValidateRequest(parse(OrDefault(body, "{}")).value).value;
    var reply := generate(req);
    FirstImageIsEarliest(if reply.ModelAnswered? && reply.parts.Some? then reply.parts.value else []);
  }

  /**
   * The handler: preflight gets 204 with an empty body, any other non-POST
   * method 405; a POST gets 200 with the image, or 500 with the message of
   * whatever was thrown.
   */
  method Handle(httpMethod: string, body: Option<string>, apiKey: Option<string>,
                parse: string -> Result<Json, Thrown>,
                generate: ColorizeRequest -> ModelReply,
                elapsedMs: nat)
    returns (resp: Response<ColorizeBody>)
    ensures httpMethod == "OPTIONS" ==> resp == Response(204, NoContent)
    ensures httpMethod != "OPTIONS" && httpMethod != "POST" ==>
      resp == Response(405, Failure("Method not allowed", None))
    ensures httpMethod == "POST" ==>
      match Outcome(apiKey, body, parse, generate)
      case Ok(image) => resp == Response(200, Colorized(image, ModelName, elapsedMs))
      case Err(t) => resp == Response(500, Failure(MessageOf(t), Some(elapsedMs)))
  {
    if httpMethod == "OPTIONS" {
      return Response(204, NoContent);
    }
    if httpMethod != "POST" {
      return Response(405, Failure("Method not allowed", None));
    }
    var thrown: Option<Thrown> := None;
    var image: Option<string> := None;
    if !(apiKey.Some? && apiKey.value != "") {
      thrown := Some(ErrorObject(MissingKeyMessage));
    } else {
      var parsed := parse(OrDefault(body, "{}"));
      if parsed.Err? {
        thrown := Some(parsed.error);
      } else {
        var validated := ValidateRequest(parsed.value);
        if validated.Err? {
          thrown := Some(ErrorObject(validated.error));
        } else {
          var reply := generate(validated.value);
          if reply.ModelThrew? {
            thrown := Some(reply.thrown);
          } else {
            image := FirstInlineImage(if reply.parts.Some? then reply.parts.value else []);
            if image.None? {
              thrown := Some(ErrorObject(NoImageMessage));
            }
          }
        }
      }
    }
    if thrown.Some? {
      resp := Response(500, Failure(MessageOf(thrown.value), Some(elapsedMs)));
    } else {
      resp := Response(200, Colorized(image.value, ModelName, elapsedMs));
    }
  }
}
