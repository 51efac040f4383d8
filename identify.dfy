/**
 * The identify serverless function (netlify/functions/identify.ts): method
 * gating, the image check, and the reduction of the model's answer to its
 * first three whitespace-separated words.
 *
 * The API key, the request text, JSON parsing and the model are parameters.
 */
module Identify {
  import opened Wrappers
  import opened Thrown
  import opened Strings
  import opened Http

  // ---------------------------------------------------------------------------
  // Splitting on runs of white space and joining with single spaces
  // ---------------------------------------------------------------------------

  predicate NoSpace(w: string)
  {
    forall i :: 0 <= i < |w| ==> !IsSpace(w[i])
  }

  /** The index of the first white-space character, or the length when there is none. */
  function FirstSpace(s: string): (i: nat)
    ensures i <= |s|
    ensures i < |s| ==> IsSpace(s[i])
    ensures NoSpace(s[..i])
  {
    if s == [] || IsSpace(s[0]) then 0
    else
      var i := 1 + FirstSpace(s[1..]);
      assert s[..i] == [s[0]] + s[1..][..i - 1];
      i
  }

  /**
   * `s.split(/\s+/)`: the pieces between maximal runs of white space. A
   * leading or trailing run yields an empty piece, and the empty text one
   * empty piece.
   */
  function Split(s: string): (r: seq<string>)
    ensures r != []
    decreases |s|
  {
    var i := FirstSpace(s);
    if i == |s| then [s]
    else
      var rest := TrimStart(s[i..]);
      assert rest != s[i..];
      [s[..i]] + Split(rest)
  }

  /** `words.slice(0, 3)`. */
  function FirstThree(words: seq<string>): (r: seq<string>)
    ensures |r| == Min(|words|, 3) && r == words[..|r|]
  {
    if |words| <= 3 then words else words[..3]
  }

  /** The name the function answers with: at most three words of the trimmed answer, single-spaced. */
  function NameFromAnswer(text: string): string
  {
    Join(FirstThree(Split(Trim(text))), " ")
  }

  /** Every piece of a split is free of white space. */
  lemma {:induction false} SplitPiecesHaveNoSpace(s: string)
    ensures forall k :: 0 <= k < |Split(s)| ==> NoSpace(Split(s)[k])
    decreases |s|
  {
    var i := FirstSpace(s);
    if i < |s| {
      var rest := TrimStart(s[i..]);
      assert rest != s[i..];
      SplitPiecesHaveNoSpace(rest);
      assert Split(s) == [s[..i]] + Split(rest);
    }
  }

  /** A text that is non-empty and does not start or end with white space splits into non-empty pieces. */
  lemma {:induction false} SplitPiecesNonEmpty(s: string)
    requires s != [] && !IsSpace(s[0]) && !IsSpace(s[|s| - 1])
    ensures forall k :: 0 <= k < |Split(s)| ==> Split(s)[k] != ""
    decreases |s|
  {
    var i := FirstSpace(s);
    if i < |s| {
      var rest := TrimStart(s[i..]);
      assert rest != s[i..];
      assert !IsSpace(s[i..][|s| - 1 - i]);
      assert rest != [];
      assert rest[|rest| - 1] == s[|s| - 1];
      SplitPiecesNonEmpty(rest);
      assert Split(s) == [s[..i]] + Split(rest);
    }
  }

  /** The first white space is found where it is. */
  lemma FirstSpaceAt(s: string, j: nat)
    requires j <= |s| && NoSpace(s[..j]) && (j < |s| ==> IsSpace(s[j]))
    ensures FirstSpace(s) == j
  {
    var i := FirstSpace(s);
    forall k | 0 <= k < j ensures !IsSpace(s[k]) {
      assert s[..j][k] == s[k];
    }
    forall k | 0 <= k < i ensures !IsSpace(s[k]) {
      assert s[..i][k] == s[k];
    }
  }

  /** A space-free word followed by one space: the split takes the word off the front. */
  lemma SplitAfterWord(w: string, rest: string)
    requires NoSpace(w) && (rest == [] || !IsSpace(rest[0]))
    ensures Split(w + " " + rest) == [w] + Split(rest)
  {
    var s := w + " " + rest;
    assert s[..|w|] == w;
    assert s[|w|] == ' ';
    FirstSpaceAt(s, |w|);
    assert s[|w|..] == " " + rest;
    assert (" " + rest)[1..] == rest;
    assert TrimStart(" " + rest) == rest;
  }

  /** Splitting words joined by single spaces gives the words back. */
  lemma {:induction false} SplitJoin(words: seq<string>)
    requires words != []
    requires forall k :: 0 <= k < |words| ==> words[k] != "" && NoSpace(words[k])
    ensures Split(Join(words, " ")) == words
  {
    var w := words[0];
    if |words| == 1 {
      assert w[..|w|] == w;
      FirstSpaceAt(w, |w|);
    } else {
      var rest := Join(words[1..], " ");
      JoinStartsWithFirst(words[1..], " ");
      assert words[1..][0] == words[1];
      assert rest[0] == words[1][0];
      SplitAfterWord(w, rest);
      SplitJoin(words[1..]);
    }
  }

  /**
   * The name has as its words exactly the first (at most three) words of the
   * trimmed answer; in particular it never has more than three.
   */
  lemma NameIsFirstThreeWords(text: string)
    ensures Split(NameFromAnswer(text)) == FirstThree(Split(Trim(text)))
    ensures |Split(NameFromAnswer(text))| <= 3
  {
    var t := Trim(text);
    var words := FirstThree(Split(t));
    SplitPiecesHaveNoSpace(t);
    if t == [] {
      assert Split(t) == [""];
    } else {
      SplitPiecesNonEmpty(t);
      SplitJoin(words);
    }
  }

  // ---------------------------------------------------------------------------
  // The handler
  // ---------------------------------------------------------------------------

  const MissingKeyMessage: string := "GOOGLE_AI_API_KEY environment variable not set"
  const MissingImageMessage: string := "Missing imageBase64"
  /** What reading a property of a parsed `null` throws. */
  const NullBodyMessage: string := "Cannot read properties of null (reading 'imageBase64')"

  /** How the call to the model ended: it threw, or answered with this text. */
  datatype ModelText = ModelThrew(thrown: Thrown) | ModelAnswered(text: string)

  datatype IdentifyBody = NoContent | Failure(error: string) | Identified(name: string)

  /**
   * What the `try` block of a POST ends with: the name, or what it threw.
   * `generate` is the model, given the request's `imageBase64` value.
   */
  function Outcome(apiKey: Option<string>, body: Option<string>,
                   parse: string -> Result<Json, Thrown>,
                   generate: Json -> ModelText): Result<string, Thrown>
  {
    if !(apiKey.Some? && apiKey.value != "") then Err(ErrorObject(MissingKeyMessage))
    else match parse(OrDefault(body, "{}"))
      case Err(t) => Err(t)
      case Ok(json) =>
        if json.JNull? then Err(ErrorObject(NullBodyMessage))
        else if !Truthy(Field(json, "imageBase64")) then Err(ErrorObject(MissingImageMessage))
        else match generate(Field(json, "imageBase64").value)
          case ModelThrew(t) => Err(t)
          case ModelAnswered(text) => Ok(NameFromAnswer(text))
  }

  /**
   * The handler: preflight gets 204 with an empty body, any other non-POST
   * method 405; a POST gets 200 with the name, or 500 with the message of
   * whatever was thrown.
   */
  function Handle(httpMethod: string, body: Option<string>, apiKey: Option<string>,
                  parse: string -> Result<Json, Thrown>,
                  generate: Json -> ModelText): (r: Response<IdentifyBody>)
    ensures httpMethod == "OPTIONS" ==> r == Response(204, NoContent)
    ensures httpMethod != "OPTIONS" && httpMethod != "POST" ==> r == Response(405, Failure("Method not allowed"))
    ensures httpMethod == "POST" ==> (r.statusCode == 200 <==> Outcome(apiKey, body, parse, generate).Ok?)
    ensures httpMethod == "POST" && r.statusCode != 200 ==>
      r == Response(500, Failure(MessageOf(Outcome(apiKey, body, parse, generate).error)))
  {
    if httpMethod == "OPTIONS" then Response(204, NoContent)
    else if httpMethod != "POST" then Response(405, Failure("Method not allowed"))
    else match Outcome(apiKey, body, parse, generate)
      case Ok(name) => Response(200, Identified(name))
      case Err(t) => Response(500, Failure(MessageOf(t)))
  }

  /**
   * A successful identification answers with the first three words of the
   * model's trimmed text, and happens only when a key is set and the body
   * carries a truthy image.
   */
  lemma SuccessCarriesName(body: Option<string>, apiKey: Option<string>,
                           parse: string -> Result<Json, Thrown>,
                           generate: Json -> ModelText)
    requires Handle("POST", body, apiKey, parse, generate).statusCode == 200
    ensures apiKey.Some? && apiKey.value != ""
    ensures parse(OrDefault(body, "{}")).Ok?
    ensures var json := parse(OrDefault(body, "{}")).value;
      && Truthy(Field(json, "imageBase64"))
      && generate(Field(json, "imageBase64").value).ModelAnswered?
      && Handle("POST", body, apiKey, parse, generate).body ==
         Identified(NameFromAnswer(generate(Field(json, "imageBase64").value).text))
    ensures |Split(Handle("POST", body, apiKey, parse, generate).body.name)| <= 3
  {
    var json := parse(OrDefault(body, "{}")).value;
    NameIsFirstThreeWords(generate(Field(json, "imageBase64").value).text);
  }

  /** A body without a truthy image is refused with 'Missing imageBase64', and the model is never asked. */
  lemma MissingImageRejected(body: Option<string>, apiKey: Option<string>,
                             parse: string -> Result<Json, Thrown>,
                             g1: Json -> ModelText, g2: Json -> ModelText)
    requires apiKey.Some? && apiKey.value != ""
    requires parse(OrDefault(body, "{}")).Ok?
    requires !parse(OrDefault(body, "{}")).value.JNull?
    requires !Truthy(Field(parse(OrDefault(body, "{}")).value, "imageBase64"))
    ensures Handle("POST", body, apiKey, parse, g1) == Response(500, Failure(MissingImageMessage))
    ensures Handle("POST", body, apiKey, parse, g1) == Handle("POST", body, apiKey, parse, g2)
  {
  }
}
